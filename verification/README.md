# AgentBarrier: model and proofs

This project models the durable runtime store of AgentBarrier and the protocols around it, and proves what they
promise. A tool call passes through the store before it runs: policy and approvals decide whether it may, pauses and
limits whether it may now, a claim lets one caller run it, and a hash-chained receipt log records every step. Around the
store sit the client protocol `execute`, a webhook outbox fed by the receipt log, a Slack notification queue, the
reference adapter with its delegation rules and replays, argument redaction, and an example payment ledger.

## How it is built

- **State and transactions.** `RuntimeModels` holds the values, `Transactions` one function per transaction of the
  store. `RuntimeStore` is the store itself, updating its tables in place; every method is proved to do to its tables, and
  to answer, what the function says. The same pairing holds for `Deliveries` and `WebhookStore`, `SlackBoard` and
  `SlackStore`, `Replays` and `ReferenceAdapter`, and inside `Ledger`.
- **Runs.** `Runs` lets anyone perform any transactions in any order with any clock readings. `StoreInvariant` proves one
  invariant that every transaction keeps; `Lifecycle`, `LifeWords`, `Controls`, `Limits` and `ReceiptChain` hold its
  parts, and `RuntimeProperties` states what follows for all runs.
- **Laws.** `TransactionLaws`, `ClaimLaws` and `ExecuteLaws` say of the store's transactions and of `execute` exactly when
  they return and what they then leave, in columns and receipts; `DeliveryLaws`, `SlackLaws` and `ReplayLaws` do so for
  the queues and the adapter. `Exports` says what a delivery carries out of the system, and `PathValues` what a dotted
  path means, by following keys rather than by splitting text.
- **Interleavings.** `Barrier` steps any number of `execute` calls, each stopping anywhere, with operator actions in between.
  `OutboxSync` and `Ownership` do the same for webhook workers, `Replays` for runs of the adapter. `SyncPass` and
  `RuntimeBarrier` tie the sequential programs to these step relations.
- **Loops.** `Passes` with `WebhookStore`, and `SlackBoard` with `SlackStore`, bound what one worker's pass can do; `Retries` holds
  what their retries share.
- **Values.** `Basics`, `Json`, `TableOrder` and `Sums` hold result types, JSON, the order of table rows and finite sums;
  `AgentActions`, `Delegation` and `Redaction` the actions of a run, who delegated them, and redaction.

Digests and hashes are datatype terms over what they hash, so equal digests mean equal payloads. Clocks are arbitrary
inputs of every step and need not be monotone. Transactions are atomic and serialised.

## Where a promise holds only under a condition

- Webhook attempts can exceed the configured maximum; they never exceed it by more than the leases lost
  (`Ownership.AttemptsAreBounded`, `Ownership.AttemptsCanExceedMaximum`).
- Endpoints subscribe to all events by default, but receipts of pause and limit blocks have no status to show. A
  filling pass returns exactly when no endpoint has such a receipt to select, and one that does is stuck before it
  (`SyncPass.SyncSucceedsExactly`, `OutboxSync.UnlabelledReceiptStopsEndpoint`).
- A replay commits at most once while handles of one run do not overlap; overlapping ones can commit twice
  (`Replays.CommittedAtMostOnce`, `Replays.OverlapCommitsTwice`). Reconciling a handle while another of its run is under
  way counts as overlap.
- Limits bound usage relative to the configuration at the claim, or to the largest maximum ever configured.

## Model

| member | source | states |
|---|---|---|
| RuntimeStores.RuntimeStore.Rollback | src/agentbarrier/runtime/store.py:346-360 | A raising transaction restores the tables it began with. |
| RuntimeStores.RuntimeStore.AppendReceipt | src/agentbarrier/runtime/store.py:1531-1572 | The log grows by one receipt, numbered next and linked to the hash of the last. |
| RuntimeStores.RuntimeStore.RefreshState | src/agentbarrier/runtime/store.py:1466-1521 | A late approval becomes expired and an executing row whose lease ran out becomes unknown, each with its receipt; otherwise nothing changes. |
| RuntimeStores.RuntimeStore.Submit | src/agentbarrier/runtime/store.py:362-441 | New state and reply equal the submission function: the row of the key is created or refreshed and returned; a different digest raises and rolls back. |
| RuntimeStores.RuntimeStore.Decide | src/agentbarrier/runtime/store.py:443-466 | New state and reply equal the decision function; a decision already in force returns without a receipt. |
| RuntimeStores.RuntimeStore.DecideAuthorized | src/agentbarrier/runtime/store.py:468-514 | The same, after the authorisation checks in their order. |
| RuntimeStores.RuntimeStore.SetPause | src/agentbarrier/runtime/store.py:553-595 | Pause row and control receipt together, or neither. |
| RuntimeStores.RuntimeStore.ClearPause | src/agentbarrier/runtime/store.py:597-627 | Removes the pause with its receipt, and says whether there was one. |
| RuntimeStores.RuntimeStore.ConfigureLimit | src/agentbarrier/runtime/store.py:641-760 | Validates, keeps a limit's shape, writes the row and the full definition into the control log. |
| RuntimeStores.RuntimeStore.DisableLimit | src/agentbarrier/runtime/store.py:762-792 | Disables once, with a receipt. |
| RuntimeStores.RuntimeStore.PlanReservations | src/agentbarrier/runtime/store.py:1224-1294 | The loop over matching limits gives exactly the plan, or the first refusal. |
| RuntimeStores.RuntimeStore.ReserveLimitCapacity | src/agentbarrier/runtime/store.py:1224-1316 | Books the whole plan or leaves books as they were. |
| RuntimeStores.RuntimeStore.ReleaseLimitCapacity | src/agentbarrier/runtime/store.py:1318-1348 | The loop releases exactly what the action still holds. |
| RuntimeStores.RuntimeStore.Claim | src/agentbarrier/runtime/store.py:867-961 | New state and grant or error equal the claim function, with block receipts kept although the claim raises and every other raise rolled back. |
| RuntimeStores.RuntimeStore.Complete | src/agentbarrier/runtime/store.py:963-994 | Stores the result of an executing action with its receipt; no lease refresh and no claim token. |
| RuntimeStores.RuntimeStore.MarkUnknown | src/agentbarrier/runtime/store.py:996-1028 | Marks an executing action unknown with the error's name. |
| RuntimeStores.RuntimeStore.Reconcile | src/agentbarrier/runtime/store.py:1030-1112 | Settles an unknown action by the operator's outcome, releasing capacity when it did not run. |
| RuntimeStores.RuntimeStore.GetAction | src/agentbarrier/runtime/store.py:1114-1119 | Returns the row as refreshed and keeps the refresh. |
| RuntimeStores.RuntimeStore.ListActions | src/agentbarrier/runtime/store.py:1121-1132 | Refreshes every row in creation order, then returns those with the status. |
| RuntimeStores.RuntimeStore.VerifyReceiptChain | src/agentbarrier/runtime/store.py:1149-1168 | True exactly on well-linked logs. |
| RuntimeStores.RuntimeStore.VerifyControlReceiptChain | src/agentbarrier/runtime/store.py:847-865 | True exactly on well-linked control logs. |
| TransactionLaws.ReadsKeepLapses | src/agentbarrier/runtime/store.py:1466-1521 | A read shows a late approval as expired and a lost execution as unknown with its error, writes exactly one receipt for it, and otherwise changes nothing. |
| TransactionLaws.KnownRequests | src/agentbarrier/runtime/store.py:369-383 | Submitting the request of a held key answers as a read of its row does; under a changed digest it raises and changes nothing. |
| TransactionLaws.NewRequests | src/agentbarrier/runtime/store.py:385-441 | A request with a free key gets a row holding every field of the request and the decision, in the status its policy effect calls for, with one receipt. |
| TransactionLaws.InvalidRequests | src/agentbarrier/runtime/store.py:362-368 | A submission is refused as invalid exactly when request, decision or their policy versions are. |
| TransactionLaws.DecisionsExactly | src/agentbarrier/runtime/store.py:443-551 | A decision returns exactly on a row that reads as pending or as so decided already; a new one records the actor and the reason given, a repeated one nothing. |
| TransactionLaws.CompletesExactly | src/agentbarrier/runtime/store.py:963-994 | Completion returns exactly for an encodable result of an executing row under its own digest; the row has succeeded with that result. |
| TransactionLaws.MarksUnknownExactly | src/agentbarrier/runtime/store.py:996-1028 | An execution is marked unknown exactly while it runs under its own digest, with the name given. |
| TransactionLaws.ReconcilesExactly | src/agentbarrier/runtime/store.py:1030-1112 | Reconciliation returns exactly for valid input on a row that reads as unknown. Committed: succeeded with the result given, books as they were. Not committed: pending again if gated, approved if allowed, no result, and all the action held is released. Each leaves its own last receipt. |
| TransactionLaws.PausesExactly | src/agentbarrier/runtime/store.py:553-595 | A pause returns exactly on valid input and pauses exactly the scope named by namespace and tool. |
| TransactionLaws.ClearsExactly | src/agentbarrier/runtime/store.py:597-627 | Clearing lifts exactly the scope named, and says whether it was paused. |
| TransactionLaws.ConfiguresExactly | src/agentbarrier/runtime/store.py:641-760 | A limit is configured as asked and enabled, exactly on valid input that keeps scope, window and path of an existing one. |
| TransactionLaws.ValidLimits | src/agentbarrier/runtime/store.py:641-690 | What an operator may ask of a limit, bounds and pairing of its maxima included. |
| TransactionLaws.DisablesExactly | src/agentbarrier/runtime/store.py:762-792 | Disabling returns exactly for an existing limit, keeps its definition and happens once. |
| RuntimeProperties.ListingsAreExact | src/agentbarrier/runtime/store.py:1121-1132 | In every reachable database a listing holds exactly the rows that read as the status asked for, once each, by creation time and id. |
| RuntimeProperties.LogDeterminesRow | src/agentbarrier/runtime/store.py:362-551 | In every reachable database each row's status, effect, digest, decider, reason and error are a fold of its own receipts. |
| RuntimeProperties.WebhookStatusFollowsLog | src/agentbarrier/service/webhooks.py:887-902 | The status a webhook shows for a receipt agrees with that fold at that receipt. |
| RuntimeProperties.ApprovalsAreConsumed | src/agentbarrier/runtime/store.py:516-551 | Approved, started, not-committed follow each other in a cycle for gated actions; started, not-committed for allowed ones; nothing for denied ones. |
| RuntimeProperties.StartsAreBounded | src/agentbarrier/runtime/store.py:867-961 | Starts equal not-committed reconciliations, plus one while the action is executing, unknown or succeeded. |
| RuntimeProperties.ApprovalsAreTimely | src/agentbarrier/runtime/store.py:390-396 | Whatever the clocks did, every start of a timed gated action lies strictly before its latest request plus the time to live. |
| RuntimeProperties.ApprovingKeepsDeadline | src/agentbarrier/runtime/store.py:1466-1487 | Approving keeps the deadline and only works before it. |
| ClaimLaws.LeaseProtects | src/agentbarrier/runtime/store.py:1489-1521 | After a granted claim the action reads as executing until the lease has run out, and as unknown from then on. |
| TransactionLaws.RequestsLapse | src/agentbarrier/runtime/store.py:1466-1487 | A new request reads as pending until its time to live has passed, and as expired from then on. |
| ClaimLaws.RefusedClaimsLeaveNoTrace | src/agentbarrier/runtime/store.py:346-360 | A claim that raises leaves nothing, not even the lapse it found; a pause or limit block leaves exactly its receipt, which tells the scope and reason, or the limit and its figures. |
| ClaimLaws.ClaimGrantedExactly | src/agentbarrier/runtime/store.py:867-961 | A claim is granted exactly for an approved, unlapsed row of this digest that no pause covers and for which every matching limit has room for one more start at the price its arguments hold. |
| ClaimLaws.GrantedClaimStarts | src/agentbarrier/runtime/store.py:867-961 | A granted claim leaves the row executing under a fresh lease, with one receipt and controls as they were. |
| ClaimLaws.SucceededReplays | src/agentbarrier/runtime/store.py:876-889 | A claim on a succeeded row under its digest replays the stored result and adds one receipt, nothing else. |
| ClaimLaws.OthersAreRefused | src/agentbarrier/runtime/store.py:867-961 | Every other claim raises the error of the status the row reads as, of its digest or of the unknown id, and changes nothing. |
| TransactionLaws.AuthorizedDecisionsExactly | src/agentbarrier/runtime/store.py:468-514 | A constrained decision returns exactly within organization, namespaces, decisions and separation of duties, on a row pending or already so decided; otherwise nothing changes. |
| RuntimeProperties.ChainsAlwaysVerify | src/agentbarrier/runtime/store.py:1531-1598 | Both logs are well linked in every reachable database. |
| RuntimeProperties.ReceiptsAreNumbered | src/agentbarrier/runtime/store.py:1531-1572 | Receipt numbers count from one without gaps. |
| ReceiptChain.LastHashSealsLog | src/agentbarrier/runtime/store.py:1574-1598 | Two verified logs with equal last hashes agree on every hashed field and in length. |
| ReceiptChain.LastControlHashSealsLog | src/agentbarrier/runtime/store.py:1413-1435 | The same for control receipts. |
| RuntimeProperties.OneActionPerKey | src/agentbarrier/runtime/store.py:368-383 | Namespace, tool and key name one action. |
| RuntimeProperties.IdentityIsForever | src/agentbarrier/runtime/store.py:362-441 | Request, digest and effect of an action never change; denied, rejected, expired and succeeded are absorbing. |
| RuntimeProperties.DigestBinds | src/agentbarrier/runtime/models.py:193-214 | Equal digests, legacy form included, mean equal requests in every bound field. |
| RuntimeProperties.ClaimBindsRequest | src/agentbarrier/runtime/store.py:876-879 | A claim is granted only for the request its row was created for. |
| RuntimeProperties.ControlsAreTheirLog | src/agentbarrier/runtime/store.py:553-627 | Active pauses and full limit definitions equal a replay of the control receipts. |
| Controls.LimitRoundTrip | src/agentbarrier/runtime/store.py:716-760 | A limit's row is recovered from the receipt that configured it. |
| Controls.MatchIsNarrowest | src/agentbarrier/runtime/store.py:1212-1222 | The matching pause covers the action and no covering pause is narrower; none matches exactly when none covers. |
| ClaimLaws.PausesBlockStarts | src/agentbarrier/runtime/store.py:890-917 | Nothing starts under a covering pause; a block names a narrowest one and its reason. |
| RuntimeProperties.UsageIsReserved | src/agentbarrier/runtime/store.py:1224-1348 | Each usage row is the sum of its open reservations, in actions and value, never negative. |
| RuntimeProperties.CapacityFollowsStatus | src/agentbarrier/runtime/store.py:1083-1084 | Open reservations belong to executing, unknown or succeeded actions, one per limit. |
| ClaimLaws.ClaimReservesAllOrNone | src/agentbarrier/runtime/store.py:1224-1316 | A granted claim reserves, once on every matching limit and on no other, the integer the arguments hold at that limit's path; any other claim reserves nothing. |
| ClaimLaws.ClaimStaysWithinLimits | src/agentbarrier/runtime/store.py:1240-1294 | After a granted claim every matching limit has grown by one start and by that integer, and is within both of its maxima. |
| ClaimLaws.FirstFullLimitRefuses | src/agentbarrier/runtime/store.py:1224-1294 | A claim that only limits stand against is refused by the first one, by id, without room, in its own words: no non-negative integer at its path, too many starts, or too much value, with the figures. |
| ClaimLaws.LimitsAreAskedInOrder | src/agentbarrier/runtime/store.py:1227-1239 | Matching limits are asked in the order of their ids. |
| ClaimLaws.CostIsRequested | src/agentbarrier/runtime/store.py:1350-1362 | What a limit charges a row is exactly the non-negative integer that following the keys of its path through the arguments leads to, and zero without a path. |
| PathValues.SegmentsSpell | src/agentbarrier/runtime/store.py:1353 | The segments of a path contain no dot and join back to it. |
| PathValues.SpellingIsUnique | src/agentbarrier/runtime/store.py:1353 | No other list of dot-free keys joins to the path. |
| PathValues.ExtractionReads | src/agentbarrier/runtime/store.py:1350-1362 | Extraction reads n exactly when the arguments hold the integer n, not negative, where the keys of the path lead. |
| RuntimeProperties.Aligned | src/agentbarrier/runtime/store.py:1240-1248 | A window starts at a multiple of its length, at or before the time it contains. |
| TableOrder.TextLessExactly | src/agentbarrier/runtime/store.py:1227-1234 | Ids are ordered by the first character in which they differ, a prefix first. |
| Limits.MatchingLimitsExact | src/agentbarrier/runtime/store.py:1224-1239 | The limits asked are exactly the enabled covering ones, each once. |
| Limits.ReleaseEffect | src/agentbarrier/runtime/store.py:1318-1348 | Releasing closes what the action held, keeps the books balanced and touches no other reservation. |
| RuntimeProperties.ValueCeilingIsLargest | src/agentbarrier/runtime/store.py:641-715 | The value ceiling is the largest maximum any configuration receipt holds. |
| RuntimeProperties.ActionCeilingIsLargest | src/agentbarrier/runtime/store.py:641-715 | The same for actions, when no configuration left them open. |
| RuntimeProperties.ValueNeverAboveHistory | src/agentbarrier/runtime/store.py:1240-1294 | Usage never exceeds the largest maximum ever configured, so value fits 64 bits. |
| RuntimeProperties.SpanMeetsTwoWindows | src/agentbarrier/runtime/store.py:1240-1260 | A span no longer than a window meets at most two aligned windows. |
| RuntimeProperties.SpanHoldsTwiceMaximum | src/agentbarrier/runtime/store.py:1240-1316 | Any half-open span of one window holds at most twice the largest maximum of unreleased starts. |
| StoreInvariant.ApplyKeeps | src/agentbarrier/runtime/store.py:362-1132 | Every transaction keeps the invariant and the identity of all rows. |
| StoreInvariant.RunGrows | src/agentbarrier/runtime/store.py:362-1132 | Along a run rows stay, identities stay, final outcomes stay and logs only grow. |
| Barrier.ExecutionIsRun | src/agentbarrier/runtime/barrier.py:116-170 | Any interleaving of calls, crashes and operator steps is, seen from the store, a run of its transactions. |
| Barrier.Agreement | src/agentbarrier/runtime/barrier.py:116-170 | All calls that return for one key return one value up to JSON normalisation, and at most one of them is not a replay. |
| Barrier.ResultIsForever | src/agentbarrier/runtime/barrier.py:292-308 | A returned result stays the stored result. |
| Barrier.OperationsAreBounded | src/agentbarrier/runtime/barrier.py:140-150 | Calls let run the operation of an action at most once per not-committed reconciliation, plus one. |
| Barrier.GrantedCallsAreBound | src/agentbarrier/runtime/barrier.py:240-290 | A call that runs its operation asked for exactly the request its action was created for. |
| RuntimeBarriers.RuntimeBarrier.Execute | src/agentbarrier/runtime/barrier.py:116-170 | The program equals the uninterrupted path of the step relation, in tables, outcome and whether the operation ran. |
| ExecuteLaws.GrantedCallsReturn | src/agentbarrier/runtime/barrier.py:132-170 | Once the submission returned and the claim is due, a call whose operation yields an encodable value returns that value, not replayed, and the action has succeeded with it. |
| ExecuteLaws.GrantedCallsFail | src/agentbarrier/runtime/barrier.py:140-170 | If the operation raises, or yields what cannot be stored, the call fails accordingly and the action is unknown with the name of the error. |
| ExecuteLaws.SucceededCallsReplay | src/agentbarrier/runtime/barrier.py:132-139 | A succeeded action's result is returned as stored, and the operation is not run. |
| ExecuteLaws.RefusedClaims | src/agentbarrier/runtime/barrier.py:132-139 | A refused claim ends the call with its error, and the operation is not run. |
| ExecuteLaws.RefusedSubmissions | src/agentbarrier/runtime/barrier.py:116-131 | A refused submission ends the call with its error; nothing changes. |
| Redaction.RedactArguments | src/agentbarrier/service/webhooks.py:855-884 | Sensitive keys first, then each configured path. |
| Redaction.NothingSensitiveSurvives | src/agentbarrier/service/webhooks.py:858-871 | No sensitive key keeps its value at any depth. |
| Redaction.EveryPathIsClosed | src/agentbarrier/service/webhooks.py:872-883 | Every configured path ends at the marker or stops earlier at a missing key or a value that is no object. |
| Redaction.PathOrderIsIrrelevant | src/agentbarrier/service/webhooks.py:872-883 | The result depends on the set of paths only. |
| Redaction.RedactionIsIdempotent | src/agentbarrier/service/webhooks.py:855-884 | Redacting again changes nothing. |
| Redaction.OthersAreUnchanged | src/agentbarrier/service/webhooks.py:855-884 | A value behind no sensitive key and no configured path is exported as it is. |
| Exports.RedactionRedacts | src/agentbarrier/service/webhooks.py:855-884 | In the redacted copy every sensitive key and every configured path, spelled by its keys, leads to the marker or to nothing, and every pointer off those leads to what it led to before. |
| WebhookStores.WebhookDeliveryStore.RegisterEndpoint | src/agentbarrier/service/webhooks.py:380-403 | The first registration fixes the checkpoint; a changed configuration raises. |
| Exports.RegistersExactly | src/agentbarrier/service/webhooks.py:380-403 | A new endpoint starts at the beginning of the log, or at its end if it asks for the latest; a known one answers its checkpoint, or raises under a changed configuration. |
| WebhookStores.WebhookDeliveryStore.Enqueue | src/agentbarrier/service/webhooks.py:405-454 | The loop inserts the wanted, missing deliveries and moves the checkpoint forward only. |
| WebhookStores.WebhookDeliveryStore.ClaimDue | src/agentbarrier/service/webhooks.py:456-500 | Lost leases are reclaimed and the first due delivery is handed out on its next attempt. |
| WebhookStores.WebhookDeliveryStore.MarkDelivered | src/agentbarrier/service/webhooks.py:502-524 | Finishes an owned delivery. |
| WebhookStores.WebhookDeliveryStore.MarkFailed | src/agentbarrier/service/webhooks.py:526-562 | Retries with backoff, or gives up when the claimed attempt was the last. |
| WebhookStores.WebhookDeliveryStore.RetryDead | src/agentbarrier/service/webhooks.py:573-608 | A dead delivery waits again with a fresh budget. |
| DeliveryLaws.ClaimsExactly | src/agentbarrier/service/webhooks.py:456-500 | A claim hands out the first delivery that is due or lost its lease, for its next attempt under a fresh lease, lets other lost ones go and touches nothing else. |
| DeliveryLaws.FinishesExactly | src/agentbarrier/service/webhooks.py:502-524 | Finishing returns exactly for the owner of a running delivery and a valid status code. |
| DeliveryLaws.FailsExactly | src/agentbarrier/service/webhooks.py:526-562 | A failed attempt is retried after the doubled wait for it, or was the last; exactly for the owner, on valid input. |
| DeliveryLaws.RetriesExactly | src/agentbarrier/service/webhooks.py:573-608 | Only a dead delivery is taken up again by hand, with no attempts spent. |
| DeliveryLaws.AdvancesExactly | src/agentbarrier/service/webhooks.py:405-454 | Enqueuing needs a registered endpoint, keeps its configuration and moves its checkpoint forward only. |
| Deliveries.FirstDue | src/agentbarrier/service/webhooks.py:471-479 | The delivery claimed is due and precedes every other due one by receipt, then endpoint; none exactly when none is due. |
| Retries.WaitsDouble | src/agentbarrier/service/webhooks.py:546-551 | Each wait is twice the one before up to the maximum, never shorter; the Slack queue uses the same. |
| OutboxSync.SelectExact | src/agentbarrier/service/webhooks.py:704-711 | A selection holds exactly the subscribed receipts past the checkpoint with their own bodies, and fails exactly when one of them has none. |
| OutboxSync.SelectionSucceedsExactly | src/agentbarrier/service/webhooks.py:887-902 | A selection succeeds exactly when it meets no pause-blocked or limit-blocked receipt. |
| OutboxSync.OutboxIsComplete | src/agentbarrier/service/webhooks.py:691-717 | For any interleaving of workers an endpoint has exactly one delivery for every subscribed receipt between start and checkpoint, with its body, and none outside. |
| Exports.DeliveriesExport | src/agentbarrier/service/webhooks.py:778-816 | Whatever workers did, every delivery carries its own receipt and its event, the identity, digest, policy version and rule of its action, the status text, and arguments redacted as its endpoint asks. |
| OutboxSync.CheckpointsNeverGoBack | src/agentbarrier/service/webhooks.py:447-453 | Checkpoints never go back, starts and configurations stay. |
| OutboxSync.UnlabelledReceiptStopsEndpoint | src/agentbarrier/service/webhooks.py:887-902 | A subscribed block receipt past the start is never reached by the checkpoint. |
| SyncPass.SyncSucceedsExactly | src/agentbarrier/service/webhooks.py:691-717 | A filling pass returns exactly when every endpoint is unchanged since its registration and has no block receipt to select. |
| SyncPass.SyncReachesTheEnd | src/agentbarrier/service/webhooks.py:691-717 | A pass that returns leaves every endpoint's checkpoint at the end of the log it saw or beyond. |
| SyncPass.SyncIsARun | src/agentbarrier/service/webhooks.py:691-717 | The pass leaves the outbox that the many-worker system reaches when nobody acts in between. |
| Exports.PassesExport | src/agentbarrier/service/webhooks.py:691-717 | A filling pass keeps every delivery there was; each one it adds exports its own log entry, redacted, and waits for its first attempt; it returns how many it added. |
| WebhookStores.WebhookWorker.SyncOutbox | src/agentbarrier/service/webhooks.py:691-717 | The nested loops compute that pass. |
| WebhookStores.WebhookWorker.DeliverNext | src/agentbarrier/service/webhooks.py:723-766 | One round claims the first due delivery and settles it by its answer: delivered on 2xx, failed otherwise; the budget of claims shrinks, or nothing is due. |
| WebhookStores.WebhookWorker.RunOnce | src/agentbarrier/service/webhooks.py:719-766 | The loop ends for every clock and sender; claims stay within the sum over unfinished rows of max(1, maximum - attempts); the counts sum to the claims and the delivered count is the number of 2xx answers; delivered and dead rows grow by theirs; nothing due is left. |
| Ownership.AttemptsAreBounded | src/agentbarrier/service/webhooks.py:456-562 | Delivering means owned and leased; attempts never exceed the maximum plus leases lost since the last manual retry. |
| Ownership.AttemptsCanExceedMaximum | src/agentbarrier/service/webhooks.py:463-483 | A concrete run in which a lost lease makes attempts exceed the maximum. |
| Ownership.OnlyTheOwnerFinishes | src/agentbarrier/service/webhooks.py:610-619 | Only the owner finishes a delivery, and only on its latest claim. |
| Ownership.DeliveredIsFinal | src/agentbarrier/service/webhooks.py:502-524 | A delivered row is never touched again. |
| SlackStores.SlackNotificationStore.Enqueue | src/agentbarrier/service/slack.py:433-465 | One notification per action; another binding raises. |
| SlackStores.SlackNotificationStore.ClaimDue | src/agentbarrier/service/slack.py:467-509 | Lost leases are reclaimed and the first due notification is handed out. |
| SlackStores.SlackNotificationStore.MarkPosted | src/agentbarrier/service/slack.py:511-533 | Finishes an owned notification with a well-formed message timestamp. |
| SlackStores.SlackNotificationStore.MarkFailed | src/agentbarrier/service/slack.py:535-569 | Retries no sooner than asked, or gives up. |
| SlackStores.SlackNotificationStore.MarkObsolete | src/agentbarrier/service/slack.py:571-589 | Drops an owned notification. |
| SlackStores.SlackNotificationStore.MarkDecided | src/agentbarrier/service/slack.py:658-680 | Settles a notification in any status under its own digest. |
| SlackStores.SlackNotificationStore.RetryDead | src/agentbarrier/service/slack.py:689-715 | A dead notification waits again. |
| SlackLaws.EnqueuesExactly | src/agentbarrier/service/slack.py:433-465 | An action is enqueued once; later calls find it, or raise under another digest or channel. |
| SlackLaws.ClaimsExactly | src/agentbarrier/service/slack.py:467-509 | A claim hands out the notification that was due first, lost leases being due now, and touches only lost ones besides. |
| SlackLaws.PostsExactly | src/agentbarrier/service/slack.py:511-533 | Posting is recorded exactly for the owner, under a well-formed timestamp and status code. |
| SlackLaws.TimestampsExactly | src/agentbarrier/service/slack.py:43 | A message timestamp is well formed exactly if it is two numbers of one to twenty digits with a dot between them. |
| SlackLaws.FailsExactly | src/agentbarrier/service/slack.py:535-569 | A failure that may be retried, before the last attempt, waits for its time; any other is final. |
| SlackLaws.WaitsExactly | src/agentbarrier/service/slack.py:549-557 | The wait is the exponential one, or longer if the server asks for longer, up to the maximum. |
| SlackLaws.DropsExactly | src/agentbarrier/service/slack.py:571-589 | Dropping is recorded exactly for the owner, under a safe reason. |
| SlackLaws.ObsoleteExactly | src/agentbarrier/service/slack.py:828-847 | A notification is posted exactly for an action still pending under its digest; a missing action and a changed digest are told apart. |
| SlackLaws.DecidesExactly | src/agentbarrier/service/slack.py:658-680 | A decision settles exactly the notification of this action under this digest. |
| SlackLaws.RetriesExactly | src/agentbarrier/service/slack.py:689-715 | Only a dead notification is taken up again, with no attempts spent. |
| SlackBoards.FirstDue | src/agentbarrier/service/slack.py:482-490 | The notification claimed is due and precedes every other due one by waiting time, then action id. |
| SlackBoards.Backoff | src/agentbarrier/service/slack.py:549-557 | The wait is at least the exponential one and what the server asks for, up to the maximum. |
| SlackBoards.BindingsAreForever | src/agentbarrier/service/slack.py:433-715 | No operation changes a notification's digest or channel, a posted message's timestamp, or reopens a posted, settled or obsolete one. |
| SlackBoards.Judged | src/agentbarrier/service/slack.py:1592-1608 | A response is accepted exactly on success with ok, the right channel and a timestamp; any refusal carries a safe code. |
| SlackLaws.JudgesExactly | src/agentbarrier/service/slack.py:854-895 | A refusal is retryable exactly on status 429, a server error, one of four codes, or a broken call; the code recorded is its own if safe. |
| SlackLaws.SafeExactly | src/agentbarrier/service/slack.py:45 | A code is safe to record exactly if it is one to 64 letters, digits, dots, underscores and dashes. |
| SlackLaws.DecimalShows | src/agentbarrier/service/slack.py:1592-1608 | The code of an unexplained refusal shows its status in decimal. |
| SlackBoards.EnqueueAllCovers | src/agentbarrier/service/slack.py:811-819 | A filling pass that returns leaves every visible pending action with a notification under its digest, and changes no other. |
| SlackBoards.EnqueueAllExactly | src/agentbarrier/service/slack.py:811-819 | A filling pass returns exactly when no pending action of its organization and namespaces changed digest or channel; it adds one notification for each of those that had none, no other, and counts them. |
| SlackStores.SlackWorker.SyncPending | src/agentbarrier/service/slack.py:811-819 | The loop enqueues the visible pending actions that the runtime store lists. |
| SlackStores.SlackWorker.DeliverNext | src/agentbarrier/service/slack.py:823-899 | A message is sent only for an action pending under the notification's digest at that moment; otherwise the notification becomes obsolete. |
| SlackStores.SlackWorker.RunOnce | src/agentbarrier/service/slack.py:821-899 | The loop ends within the same budget; posted, retried, dead and obsolete sum to the claims and count the rows that became so; nothing due is left. |
| Delegation.ValidateActions | src/agentbarrier/adapter.py:134-174 | Accepts exactly non-empty lists with unique ids, existing parents and no cycle, and every error names a true fault; the walk terminates. |
| Delegation.Walk | src/agentbarrier/adapter.py:158-173 | The walk up from an action ends, or its error is a cycle or a missing parent in the list. |
| Delegation.AncestorsAllowed | src/agentbarrier/adapters/reference.py:130-144 | On accepted lists the walk ends and says whether every gated ancestor was approved. |
| Delegation.ResolveApprovals | src/agentbarrier/adapters/reference.py:104-128 | The loop returns, in order, the executable actions. |
| Delegation.ExecutesExactly | src/agentbarrier/adapters/reference.py:104-128 | An action is executable exactly when its own gate and every gated ancestor's were approved. |
| ReferenceAdapters.EffectProbe.Call | src/agentbarrier/probe.py:51-92 | One call of the effect: injected failures, the hook's outcome, the journal. |
| ReferenceAdapters.EffectProbe.Reconcile | src/agentbarrier/probe.py:94-147 | The journal lookup by stable identity, classified by what it finds. |
| ReferenceAdapters.ReferenceAdapter.Begin | src/agentbarrier/adapters/reference.py:36-52 | A handle exactly for accepted lists. |
| ReferenceAdapters.ReferenceRun.Approve | src/agentbarrier/adapters/reference.py:177-201 | A gate is decided once; a replacement keeps id and tool. |
| ReferenceAdapters.ReferenceRun.Reject | src/agentbarrier/adapters/reference.py:177-209 | A gate is decided once. |
| ReplayLaws.DecisionsAreAnswered | src/agentbarrier/adapters/reference.py:177-209 | A reviewer's call returns exactly for an undecided listed gate of a waiting run, with a replacement of its id and tool; the three errors are told apart. |
| ReplayLaws.DecisionsAreRecorded | src/agentbarrier/adapters/reference.py:177-209 | An accepted decision is recorded as given; any other changes nothing. |
| ReplayLaws.AcceptedIsFinal | src/agentbarrier/adapters/reference.py:177-209 | Whatever happens later, an accepted decision stays the verdict on its gate. |
| ReplayLaws.RejectedNeverRuns | src/agentbarrier/adapters/reference.py:104-144 | After an accepted rejection the handle never has a task for the action or any descendant of it, and commits nothing for them. |
| ReplayLaws.ApprovedRunsAsSaid | src/agentbarrier/adapters/reference.py:104-128 | After an accepted approval a task for the action can only be the replacement given or else the original, and nothing else is committed for it. |
| ReferenceAdapters.ReferenceRun.Start | src/agentbarrier/adapters/reference.py:100-152 | Tasks for exactly the executable actions not yet executed in this run. |
| ReplayLaws.StartsExactly | src/agentbarrier/adapters/reference.py:100-152 | Once every gate is decided, a listed action gets a task exactly when its gate and its ancestors' are open and it was not executed in this run. |
| ReplayLaws.UndecidedWaits | src/agentbarrier/adapters/reference.py:104-128 | An undecided gate keeps the run waiting. |
| ReferenceAdapters.ReferenceRun.ExecuteOne | src/agentbarrier/adapters/reference.py:162-169 | Effect, completed set and phase change together; an ambiguous effect counts as executed. |
| ReplayLaws.CallsExactly | src/agentbarrier/probe.py:51-92 | The fault before the commit comes first, then what the hook does, then the fault after it; each fault is spent once. |
| ReplayLaws.RunsExactly | src/agentbarrier/adapters/reference.py:146-169 | A task calls the effect once and ends; it counts as executed unless the hook raised, and the first failure decides how the run stops. |
| ReplayLaws.EndsExactly | src/agentbarrier/adapters/reference.py:77-98 | A run ends completed when its tasks are done, or as it was stopped, and drops the tasks left. |
| ReferenceAdapters.ReferenceRun.Reconcile | src/agentbarrier/adapters/reference.py:223-282 | Evidence settles the completed set and is cached per handle. |
| ReplayLaws.ReconcilesExactly | src/agentbarrier/adapters/reference.py:223-282 | Evidence comes from the cache or, for a listed action of an ended run of unknown outcome, from the journal; found once it counts as executed, not found it may be executed again. |
| ReplayLaws.LooksUpExactly | src/agentbarrier/probe.py:94-147 | The lookup says not committed exactly when the journal holds nothing for the action in this run, and committed exactly when it holds one commit with its very digest. |
| Replays.CommittedAtMostOnce | src/agentbarrier/adapters/reference.py:146-169 | While handles of one run do not overlap, each action of a run is committed at most once, through lost responses, cancellation, reconciliation and replay; what is committed is in the completed set. |
| ReplayLaws.NoTwoCommits | src/agentbarrier/adapters/reference.py:146-169 | Under the same condition no two entries of the journal are commits of one action of one run. |
| Replays.OverlapCommitsTwice | src/agentbarrier/adapters/reference.py:284-292 | Two overlapping handles of one run commit one action twice. |
| Replays.OnlyApprovedEffectsCommit | src/agentbarrier/adapters/reference.py:104-128 | Overlapping or not, every committed effect is one its run's approvals made executable. |
| Ledgers.PaymentLedger.SeedAccount | examples/payment_ledger.py:60-71 | Creates an account once with a non-negative balance. |
| Ledgers.PaymentLedger.CommitPayment | examples/payment_ledger.py:73-131 | The transfer and its record together, or nothing. |
| Ledgers.PaymentLedger.ReconcilePayment | examples/payment_ledger.py:133-164 | What the ledger records for an identity. |
| Ledgers.PaymentFields | examples/payment_ledger.py:246-262 | A payment names two different accounts and a positive amount. |
| Ledgers.ReadsPayments | examples/payment_ledger.py:246-262 | The fields read are exactly those the arguments name, for a transfer between two accounts. |
| Ledgers.CommitsExactly | examples/payment_ledger.py:73-131 | A payment goes through exactly when its identity is unused, both accounts exist and the source covers it; the amount moves from source to destination only. |
| Ledgers.OthersRaise | examples/payment_ledger.py:246-262 | What describes no payment raises and changes nothing. |
| Ledgers.SeedsExactly | examples/payment_ledger.py:60-71 | An account is seeded once, within 64 bits. |
| Ledgers.BalanceEquation | examples/payment_ledger.py:73-131 | After any seeds and payments a balance is its seed plus inflows minus outflows over recorded operations, and not negative. |
| Ledgers.TotalIsSeeded | examples/payment_ledger.py:73-131 | The total is the sum of the seeds. |
| Ledgers.PaidOnce | examples/payment_ledger.py:84-96 | A paid action is never paid again: repeating it returns false, another use of its identity raises, both change nothing. |
| Ledgers.CommitMovesOrKeeps | examples/payment_ledger.py:98-131 | A payment moves its amount between its two accounts only, or changes nothing. |
| Ledgers.ReconcilesExactly | examples/payment_ledger.py:133-164 | Reconciliation says committed exactly when a payment with this digest went through. |
| Ledgers.NotCommittedExactly | examples/payment_ledger.py:133-164 | It says not committed exactly when nothing was ever paid under the identity. |

## Left out

- SQL text, pragmas, schema creation and migration, backup and the PostgreSQL adapter; transactions are assumed atomic and serialised.
- A COMMIT whose outcome is unknown.
- HTTP, MCP, dashboard, CLI, reporters, Slack messages and signatures, framework adapters: input, output and formatting.
- Policy evaluation: the decision is an arbitrary input of a submission.
- JSON encoding, SHA-256, HMAC, UUIDs and key patterns: injective terms, given identifiers, a key predicate as parameter.
- Nanosecond timestamps are unbounded natural numbers; a deadline past 64 bits, which the database would refuse, is not modelled.
- Floating-point seconds: backoff is in integer units.
- Listing pauses, limits, usage and receipts: plain reads.
- Telemetry and observation hooks; they see states and change none.
- Capability checks, audit receipts and timeouts of the adapter: a timeout is one of the interruptions a run may meet.
- Slack interactions (`require_message_binding`, recording of interactions): plain reads and one idempotent insert.
- Controls.MatchIsNarrowest: two equally narrow pauses set at the same instant are told apart by a fixed order, where the database leaves the choice open.
- Redaction.RedactArguments: rebuilds the value instead of overwriting members of a detached copy, so aliasing inside the copy is not captured.
- WebhookStores.WebhookWorker.RunOnce: nothing else touches the store during the pass; other workers are the subject of `OutboxSync` and `Ownership`.
- SlackStores.SlackWorker.RunOnce: the same.
- ReferenceAdapters.EffectProbe.Reconcile: only the journal lookup; an injected lookup and its identity mismatch are not modelled. A probe serves the run its handle names.
- ReferenceAdapters.ReferenceRun.Approve: refuses every decision after a run stopped waiting; the source refuses only those already taken or awaited, and a later one has no effect.
- ReferenceAdapters.ReferenceRun.ExecuteOne: scheduling is reduced to the order in which tasks finish.
- Ledgers.PaymentLedger.CommitPayment: balances are unbounded integers; sums past 64 bits, which SQLite turns into floating point, are not modelled.
