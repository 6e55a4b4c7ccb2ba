/**
 * What each transaction of the store promises its caller: exactly when it returns, what it then leaves, and that it
 * leaves nothing when it raises. The laws speak of columns and receipts only.
 */
module TransactionLaws {
  import opened Basics
  import opened JsonValues
  import opened RuntimeModels
  import opened Limits
  import T = Transactions
  import TableOrder

  // ---------- words for what changed ----------

  /** One receipt was added: this one. */
  predicate OneReceipt(a: Tables, b: Tables, id: string, event: Event, now: nat, actor: Option<string>, detail: Option<Text>) {
    && |b.receipts| == |a.receipts| + 1 && a.receipts <= b.receipts
    && LastReceipt(b, id, event, now, actor, detail)
  }

  predicate LastReceipt(t: Tables, id: string, event: Event, now: nat, actor: Option<string>, detail: Option<Text>) {
    |t.receipts| > 0 &&
    var r := t.receipts[|t.receipts| - 1];
    r.actionId == id && r.event == event && r.timestamp == now && r.actor == actor && r.detail == detail
  }

  predicate BooksStay(a: Tables, b: Tables) {
    a.usage == b.usage && a.reservations == b.reservations
  }

  predicate ControlsStay(a: Tables, b: Tables) {
    a.pauses == b.pauses && a.limits == b.limits && a.controls == b.controls
  }

  predicate RowsStay(a: Tables, b: Tables) {
    a.actions == b.actions && a.index == b.index && a.receipts == b.receipts && BooksStay(a, b)
  }

  // ---------- what time does to a row ----------

  /** The status a row shows at a time: an approval may have lapsed, or an execution lost its lease. */
  function SeenStatus(row: Action, now: nat): Status {
    if row.status in {Pending, Approved} && row.expiresAt.Some? && now >= row.expiresAt.value then Expired
    else if row.status == Executing && row.leaseExpiresAt.Some? && now >= row.leaseExpiresAt.value then Unknown
    else row.status
  }

  /** Writing a row with a receipt does that and no more. */
  lemma Recording(t: Tables, id: string, row: Action, event: Event, now: nat, actor: Option<string>, detail: Option<Text>)
    ensures var after := T.Record(t, id, row, event, now, actor, detail);
            && after.actions == t.actions[id := row] && after.index == t.index[ActionKey(row.namespace, row.tool, row.key) := id]
            && OneReceipt(t, after, id, event, now, actor, detail) && BooksStay(t, after) && ControlsStay(t, after)
  {
  }

  /** A read shows that status and keeps it, with one receipt if it changed, and touches nothing else. */
  lemma ReadsKeepLapses(t: Tables, id: string, now: nat)
    ensures var tx := T.GetAction(t, id, now);
            && (tx.reply.Returned? <==> id in t.actions)
            && (tx.reply.Raised? ==> tx.tables == t && tx.reply.error == UnknownId(id))
            && (id in t.actions ==>
                  var row, seen := t.actions[id], tx.reply.value;
                  && tx.tables.actions == t.actions[id := seen] && BooksStay(t, tx.tables) && ControlsStay(t, tx.tables)
                  && seen.status == SeenStatus(row, now)
                  && (seen.status == row.status ==> seen == row && tx.tables == t)
                  && (seen.status != row.status && seen.status == Expired ==>
                        && seen == row.(status := Expired, updatedAt := now)
                        && OneReceipt(t, tx.tables, id, ApprovalLapsed, now, Some("runtime"), None))
                  && (seen.status != row.status && seen.status != Expired ==>
                        && seen == row.(status := Unknown, updatedAt := now, error := Some("ExecutionLeaseExpired"), leaseExpiresAt := None)
                        && OneReceipt(t, tx.tables, id, ExecutionAbandoned, now, Some("runtime"), Some(Raw("ExecutionLeaseExpired")))))
  {
    if id in t.actions {
      var row := t.actions[id];
      Recording(t, id, row.(status := Expired, updatedAt := now), ApprovalLapsed, now, Some("runtime"), None);
      Recording(t, id, row.(status := Unknown, updatedAt := now, error := Some("ExecutionLeaseExpired"), leaseExpiresAt := None),
                ExecutionAbandoned, now, Some("runtime"), Some(Raw("ExecutionLeaseExpired")));
      hide T.Record, OneReceipt;
    }
  }

  /** Every transaction that refreshes a row refreshes it as a read does. */
  lemma RefreshIsARead(t: Tables, id: string, now: nat)
    requires id in t.actions
    ensures var t1 := T.RefreshState(t, id, now);
            && T.GetAction(t, id, now) == T.Tx(t1, Returned(t1.actions[id]))
            && t1.actions.Keys == t.actions.Keys && t1.actions[id].status == SeenStatus(t.actions[id], now)
            && t1.actions == t.actions[id := t1.actions[id]] && t.receipts <= t1.receipts
            && BooksStay(t, t1) && ControlsStay(t, t1)
            && (var a, b := t.actions[id], t1.actions[id];
                a == b.(status := a.status, updatedAt := a.updatedAt, error := a.error, leaseExpiresAt := a.leaseExpiresAt))
            && (t1.actions[id].status == t.actions[id].status ==> t1 == t)
  {
    ReadsKeepLapses(t, id, now);
    hide T.RefreshState;
  }

  // ---------- submission ----------

  /** The row that holds a request's key. */
  predicate Holds(t: Tables, request: Request, id: string) {
    var key := ActionKey(request.namespace, request.tool, request.key);
    key in t.index && t.index[key] == id && id in t.actions
  }

  ghost predicate KeyIsFree(t: Tables, request: Request) {
    forall id :: !Holds(t, request, id)
  }

  predicate ValidSubmission(request: Request, decision: PolicyDecision) {
    ValidRequest(request) && ValidPolicyDecision(decision) && decision.policyVersion == request.policyVersion
  }

  /** Submitting a known request answers with its row as a read shows it; under a changed digest it raises and changes nothing. */
  lemma KnownRequests(t: Tables, request: Request, decision: PolicyDecision, now: nat, id: string)
    requires ValidSubmission(request, decision) && Holds(t, request, id)
    ensures var tx := T.Submit(t, request, decision, now);
            if t.actions[id].digest == RequestDigest(request) then tx == T.GetAction(t, id, now)
            else tx == T.Tx(t, Raised(BindingMismatch))
  {
    RefreshIsARead(t, id, now);
    hide T.RefreshState;
  }

  /** A new request gets a row of its own, in the status its policy effect calls for, and one receipt. */
  lemma NewRequests(t: Tables, request: Request, decision: PolicyDecision, now: nat)
    requires ValidSubmission(request, decision) && KeyIsFree(t, request)
    ensures var tx := T.Submit(t, request, decision, now);
            if request.actionId in t.actions then tx == T.Tx(t, Raised(IntegrityViolation))
            else
              && tx.reply.Returned?
              && (var row := tx.reply.value;
                  && row.actionId == request.actionId && row.namespace == request.namespace && row.tool == request.tool
                  && row.arguments == request.arguments && row.key == request.key && row.policyVersion == request.policyVersion
                  && row.organization == request.organization && row.requester == request.requester
                  && row.createdAt == request.createdAt && row.updatedAt == now && row.digest == RequestDigest(request)
                  && row.effect == decision.effect && row.rule == decision.rule && row.approvalTtl == decision.approvalTtl
                  && row.status == (match decision.effect case Allow => Approved case Deny => Denied case RequireApproval => Pending)
                  && (match decision.approvalTtl
                      case None => row.expiresAt == None
                      case Some(ttl) => row.expiresAt == Some(now + ttl))
                  && row.decidedBy == (if decision.effect == Allow then Some("policy") else None) && row.decisionReason == None
                  && row.leaseExpiresAt == None && row.result == None && row.error == None
                  && tx.tables.actions == t.actions[request.actionId := row])
              && Holds(tx.tables, request, request.actionId)
              && OneReceipt(t, tx.tables, request.actionId,
                            match decision.effect case Allow => PolicyAllowed case Deny => PolicyDenied case RequireApproval => ApprovalRequested,
                            now, Some("policy"), Some(Raw("rule=" + decision.rule + ";policy=" + decision.policyVersion)))
              && BooksStay(t, tx.tables) && ControlsStay(t, tx.tables)
  {
    var key := ActionKey(request.namespace, request.tool, request.key);
    if key in t.index {
      assert !Holds(t, request, t.index[key]);
    }
  }

  lemma InvalidRequests(t: Tables, request: Request, decision: PolicyDecision, now: nat)
    ensures T.Submit(t, request, decision, now) == T.Tx(t, Raised(InvalidValue)) <==> !ValidSubmission(request, decision)
  {
    hide T.RefreshState;
  }

  // ---------- decisions ----------

  function Target(decision: Decision): Status {
    match decision case Approve => Approved case Reject => Rejected
  }

  /** What a decision leaves of a row: who decided it and why, in the status decided; repeated, it leaves what a read does. */
  predicate DecisionLeft(t: Tables, after: Tables, row: Action, id: string, decision: Decision, actor: string, reason: Option<string>, now: nat)
    requires id in t.actions
  {
    var before := t.actions[id];
    && row.status == Target(decision) && after.actions == t.actions[id := row]
    && BooksStay(t, after) && ControlsStay(t, after)
    && if before.status == Target(decision) then row == before && after == t
       else
         && row == before.(status := Target(decision), updatedAt := now, decidedBy := Some(actor), decisionReason := reason)
         && OneReceipt(t, after, id, match decision case Approve => ApprovalGranted case Reject => Event.ApprovalRejected, now,
                       Some(actor), if reason.Some? then Some(Raw(reason.value)) else None)
  }

  /** A decision returns exactly on a row that reads as pending, or as so decided already. */
  lemma DecisionsExactly(t: Tables, id: string, decision: Decision, actor: string, reason: Option<string>, now: nat)
    ensures var tx := T.Decide(t, id, decision, actor, reason, now);
            && (tx.reply.Returned?
                <==> !Blank(actor) && id in t.actions && SeenStatus(t.actions[id], now) in {Pending, Target(decision)})
            && (tx.reply.Returned? ==> DecisionLeft(t, tx.tables, tx.reply.value, id, decision, actor, reason, now))
            && (tx.reply.Raised? ==> tx.tables == t)
            && (!Blank(actor) && id in t.actions && SeenStatus(t.actions[id], now) == Expired ==>
                  tx.reply.Raised? && tx.reply.error.ApprovalExpired?)
  {
    if id in t.actions {
      RefreshIsARead(t, id, now);
      DecidingLeaves(T.RefreshState(t, id, now), id, decision, actor, reason, now);
      hide T.RefreshState, T.Decided, DecisionLeft;
    }
  }

  lemma DecidingLeaves(t: Tables, id: string, decision: Decision, actor: string, reason: Option<string>, now: nat)
    requires id in t.actions
    ensures var tx := T.Decided(t, id, decision, actor, reason, now);
            && (tx.reply.Returned? <==> t.actions[id].status in {Pending, Target(decision)})
            && (tx.reply.Returned? ==> DecisionLeft(t, tx.tables, tx.reply.value, id, decision, actor, reason, now))
            && (t.actions[id].status == Expired ==> tx.reply.Raised? && tx.reply.error.ApprovalExpired?)
  {
    var row := t.actions[id].(status := Target(decision), updatedAt := now, decidedBy := Some(actor), decisionReason := reason);
    var event := match decision case Approve => ApprovalGranted case Reject => Event.ApprovalRejected;
    Recording(t, id, row, event, now, Some(actor), if reason.Some? then Some(Raw(reason.value)) else None);
    hide T.Record, OneReceipt;
  }

  /**
   * A constrained reviewer decides exactly what lies in their organization, namespaces and decisions, is not their own
   * request where that is asked for, and is pending or already so decided.
   */
  lemma AuthorizedDecisionsExactly(t: Tables, id: string, decision: Decision, auth: Authorization,
                                   reason: Option<string>, now: nat)
    ensures var tx := T.DecideAuthorized(t, id, decision, auth, reason, now);
            && (tx.reply.Returned?
                <==> (id in t.actions
                      && var row := t.actions[id];
                         && row.organization == auth.organization && row.namespace in auth.namespaces && decision in auth.decisions
                         && !(auth.separateApprover && row.requester.Some? && row.requester.value == ReviewerName(auth))
                         && SeenStatus(row, now) in {Pending, Target(decision)}))
            && (tx.reply.Returned? ==> DecisionLeft(t, tx.tables, tx.reply.value, id, decision, auth.actor, reason, now))
            && (tx.reply.Raised? ==> tx.tables == t)
  {
    if id in t.actions {
      RefreshIsARead(t, id, now);
      DecidingLeaves(T.RefreshState(t, id, now), id, decision, auth.actor, reason, now);
      hide T.RefreshState, T.Decided, DecisionLeft;
    }
  }

  /** The name a reviewer is compared with the requester under. */
  function ReviewerName(auth: Authorization): string {
    if auth.subject.Some? && auth.subject.value != "" then auth.subject.value else auth.actor
  }

  /** A request waits for its approval until its time to live has passed, and no longer. */
  lemma RequestsLapse(t: Tables, request: Request, decision: PolicyDecision, now: nat, later: nat)
    requires KeyIsFree(t, request) && T.Submit(t, request, decision, now).reply.Returned?
    requires decision.effect == RequireApproval
    ensures var seen := T.GetAction(T.Submit(t, request, decision, now).tables, request.actionId, later).reply;
            seen.Returned? && seen.value.status
              == if decision.approvalTtl.Some? && later >= now + decision.approvalTtl.value then Expired else Pending
  {
    InvalidRequests(t, request, decision, now);
    NewRequests(t, request, decision, now);
    ReadsKeepLapses(T.Submit(t, request, decision, now).tables, request.actionId, later);
    hide T.Submit, T.GetAction;
  }

  // ---------- the end of an execution ----------

  /** Completion returns exactly for an encodable result of an executing action under its own digest, and keeps that result. */
  lemma CompletesExactly(t: Tables, id: string, digest: Digest, result: PyValue, now: nat)
    ensures var tx := T.Complete(t, id, digest, result, now);
            && (tx.reply.Returned?
                <==> result.Encodable? && id in t.actions && t.actions[id].digest == digest && t.actions[id].status == Executing)
            && (tx.reply.Raised? ==> tx.tables == t)
            && (tx.reply.Returned? ==>
                  && tx.reply.value == t.actions[id].(status := Succeeded, updatedAt := now, result := Some(result.json), error := None,
                                                      leaseExpiresAt := None)
                  && tx.tables.actions == t.actions[id := tx.reply.value]
                  && OneReceipt(t, tx.tables, id, ExecutionSucceeded, now, Some("runtime"), None)
                  && BooksStay(t, tx.tables) && ControlsStay(t, tx.tables))
  {
  }

  /** An execution is marked unknown exactly while it runs under its own digest, and keeps the name of its error. */
  lemma MarksUnknownExactly(t: Tables, id: string, digest: Digest, error: string, now: nat)
    ensures var tx := T.MarkUnknown(t, id, digest, error, now);
            && (tx.reply.Returned?
                <==> !Blank(error) && id in t.actions && t.actions[id].digest == digest && t.actions[id].status == Executing)
            && (tx.reply.Raised? ==> tx.tables == t)
            && (tx.reply.Returned? ==>
                  && tx.reply.value == t.actions[id].(status := Unknown, updatedAt := now, error := Some(error), leaseExpiresAt := None)
                  && tx.tables.actions == t.actions[id := tx.reply.value]
                  && OneReceipt(t, tx.tables, id, ExecutionUnknown, now, Some("runtime"), Some(Raw(error)))
                  && BooksStay(t, tx.tables) && ControlsStay(t, tx.tables))
  {
  }

  // ---------- reconciliation ----------

  predicate ValidReconciliation(outcome: Reconciliation, actor: string, reason: string, result: PyValue) {
    && !Blank(actor) && !Blank(reason) && result.Encodable?
    && (outcome == NotCommitted ==> result == Encodable(Null, 0))
  }

  /** The operator says it ran: the action succeeded with the result they give, and what it holds stays held. */
  predicate SettledAsCommitted(t: Tables, after: Tables, id: string, row: Action, result: Json)
    requires id in t.actions
  {
    && row.status == Succeeded && row.result == Some(result)
    && row.decidedBy == t.actions[id].decidedBy && row.decisionReason == t.actions[id].decisionReason
    && BooksStay(t, after)
  }

  /** The operator says it did not run: it must be approved again, or may start again, and holds nothing. */
  predicate SettledAsNotCommitted(t: Tables, after: Tables, id: string, row: Action, now: nat)
    requires id in t.actions
  {
    var before := t.actions[id];
    && row.result == None && row.effect == before.effect
    && (row.effect == RequireApproval ==>
          && row.status == Pending && row.decidedBy == None && row.decisionReason == None
          && row.expiresAt == if row.approvalTtl.Some? then Some(now + row.approvalTtl.value) else None)
    && (row.effect == Allow ==> row.status == Approved && row.decidedBy == Some("policy") && row.expiresAt == None)
    && (forall r <- after.reservations | r.actionId == id :: r.releasedAt.Some?)
    && |after.reservations| == |t.reservations|
    && (forall i | 0 <= i < |t.reservations| ::
          after.reservations[i]
          == if t.reservations[i].actionId == id && t.reservations[i].releasedAt.None? then t.reservations[i].(releasedAt := Some(now))
             else t.reservations[i])
  }

  lemma CommittedSettles(t: Tables, id: string, actor: string, reason: string, result: Json, now: nat)
    requires id in t.actions
    ensures var row := T.ReconciledRow(t.actions[id], Committed, Some(result), now);
            row.Some? &&
            var after := T.Record(t, id, row.value, ReconciledCommitted, now, Some(actor), Some(Raw(reason)));
            && SettledAsCommitted(t, after, id, row.value, result) && OneReceipt(t, after, id, ReconciledCommitted, now, Some(actor), Some(Raw(reason)))
            && after.actions == t.actions[id := row.value] && ControlsStay(t, after)
  {
    Recording(t, id, T.ReconciledRow(t.actions[id], Committed, Some(result), now).value, ReconciledCommitted, now, Some(actor), Some(Raw(reason)));
    hide T.Record, OneReceipt;
  }

  lemma NotCommittedSettles(t: Tables, id: string, actor: string, reason: string, now: nat)
    requires id in t.actions
    ensures var row := T.ReconciledRow(t.actions[id], NotCommitted, None, now);
            && (row.Some? <==> t.actions[id].effect != Deny)
            && (row.Some? ==>
                  var released := T.WithBooks(t, T.Release(T.Books(t.usage, t.reservations), id, now, |t.reservations|));
                  var after := T.Record(released, id, row.value, ReconciledNotCommitted, now, Some(actor), Some(Raw(reason)));
                  && SettledAsNotCommitted(t, after, id, row.value, now)
                  && OneReceipt(t, after, id, ReconciledNotCommitted, now, Some(actor), Some(Raw(reason)))
                  && after.actions == t.actions[id := row.value] && ControlsStay(t, after))
  {
    var row := T.ReconciledRow(t.actions[id], NotCommitted, None, now);
    if row.Some? {
      var books := T.Release(T.Books(t.usage, t.reservations), id, now, |t.reservations|);
      ReleaseCloses(T.Books(t.usage, t.reservations), id, now, |t.reservations|);
      Recording(T.WithBooks(t, books), id, row.value, ReconciledNotCommitted, now, Some(actor), Some(Raw(reason)));
      hide T.Record, T.Release, OneReceipt;
      forall r <- books.reservations | r.actionId == id ensures r.releasedAt.Some? {
        var i :| 0 <= i < |books.reservations| && books.reservations[i] == r;
        assert T.Held(t.reservations[i], id) <==> t.reservations[i].actionId == id && t.reservations[i].releasedAt.None?;
      }
    }
  }

  /** Which way a reconciliation goes. */
  lemma ReconcileGoes(t: Tables, id: string, outcome: Reconciliation, actor: string, reason: string, result: PyValue, now: nat)
    requires ValidReconciliation(outcome, actor, reason, result) && id in t.actions && SeenStatus(t.actions[id], now) == Unknown
    ensures var t1 := T.RefreshState(t, id, now);
            var tx := T.Reconcile(t, id, outcome, actor, reason, result, now);
            match outcome
            case Committed =>
              var row := T.ReconciledRow(t1.actions[id], Committed, Some(result.json), now);
              row.Some?
              && tx == T.Tx(T.Record(t1, id, row.value, ReconciledCommitted, now, Some(actor), Some(Raw(reason))), Returned(row.value))
            case NotCommitted =>
              var row := T.ReconciledRow(t1.actions[id], NotCommitted, None, now);
              var released := T.WithBooks(t1, T.Release(T.Books(t1.usage, t1.reservations), id, now, |t1.reservations|));
              if row.None? then tx.reply.Raised? && tx.tables == t
              else
                tx == T.Tx(T.Record(released, id, row.value, ReconciledNotCommitted, now, Some(actor), Some(Raw(reason))), Returned(row.value))
  {
    RefreshIsARead(t, id, now);
    hide T.RefreshState, T.Release, T.Record;
  }

  lemma OtherReconciliationsRaise(t: Tables, id: string, outcome: Reconciliation, actor: string, reason: string, result: PyValue, now: nat)
    requires !(ValidReconciliation(outcome, actor, reason, result) && id in t.actions && SeenStatus(t.actions[id], now) == Unknown)
    ensures var tx := T.Reconcile(t, id, outcome, actor, reason, result, now); tx.reply.Raised? && tx.tables == t
  {
    if id in t.actions {
      RefreshIsARead(t, id, now);
      hide T.RefreshState, T.Release, T.Record, T.ReconciledRow;
    }
  }

  /** What a returned reconciliation leaves: the row as the operator settled it, and last the receipt that says so. */
  predicate OutcomeKept(t: Tables, after: Tables, row: Action, id: string, outcome: Reconciliation, actor: string, reason: string,
                        result: PyValue, now: nat)
    requires id in t.actions && result.Encodable?
  {
    && after.actions == t.actions[id := row] && ControlsStay(t, after) && t.receipts <= after.receipts
    && match outcome
       case Committed =>
         && SettledAsCommitted(t, after, id, row, result.json)
         && LastReceipt(after, id, ReconciledCommitted, now, Some(actor), Some(Raw(reason)))
       case NotCommitted =>
         && SettledAsNotCommitted(t, after, id, row, now)
         && LastReceipt(after, id, ReconciledNotCommitted, now, Some(actor), Some(Raw(reason)))
  }

  lemma OutcomeIsKept(t: Tables, id: string, outcome: Reconciliation, actor: string, reason: string, result: PyValue, now: nat)
    requires ValidReconciliation(outcome, actor, reason, result) && id in t.actions && SeenStatus(t.actions[id], now) == Unknown
    ensures var tx := T.Reconcile(t, id, outcome, actor, reason, result, now);
            && (tx.reply.Returned? <==> outcome == Committed || t.actions[id].effect != Deny)
            && (tx.reply.Raised? ==> tx.tables == t)
            && (tx.reply.Returned? ==> OutcomeKept(t, tx.tables, tx.reply.value, id, outcome, actor, reason, result, now))
  {
    hide T.Reconcile, T.RefreshState, T.Release, T.ReconciledRow, T.Record, LastReceipt, SeenStatus, RowsStay;
    RefreshIsARead(t, id, now);
    ReconcileGoes(t, id, outcome, actor, reason, result, now);
    var t1 := T.RefreshState(t, id, now);
    match outcome {
      case Committed => CommittedSettles(t1, id, actor, reason, result.json, now);
      case NotCommitted => NotCommittedSettles(t1, id, actor, reason, now);
    }
  }

  /**
   * Reconciliation returns exactly for valid input on an action that reads as unknown, and does to it what the operator
   * said.
   */
  lemma ReconcilesExactly(t: Tables, id: string, outcome: Reconciliation, actor: string, reason: string, result: PyValue, now: nat)
    ensures var tx := T.Reconcile(t, id, outcome, actor, reason, result, now);
            && (tx.reply.Returned?
                <==> && ValidReconciliation(outcome, actor, reason, result)
                     && id in t.actions && SeenStatus(t.actions[id], now) == Unknown
                     && (outcome == NotCommitted ==> t.actions[id].effect != Deny))
            && (tx.reply.Raised? ==> tx.tables == t)
            && (tx.reply.Returned? ==> OutcomeKept(t, tx.tables, tx.reply.value, id, outcome, actor, reason, result, now))
  {
    if ValidReconciliation(outcome, actor, reason, result) && id in t.actions && SeenStatus(t.actions[id], now) == Unknown {
      OutcomeIsKept(t, id, outcome, actor, reason, result, now);
    } else {
      OtherReconciliationsRaise(t, id, outcome, actor, reason, result, now);
    }
    hide T.Reconcile, OutcomeKept, SeenStatus;
  }

  // ---------- controls ----------

  /** The scope an operator names: a missing component means every one. */
  predicate Names(scope: Scope, namespace: Option<string>, tool: Option<string>) {
    && (match namespace case None => scope.namespace == "" case Some(n) => scope.namespace == n)
    && (match tool case None => scope.tool == "" case Some(n) => scope.tool == n)
  }

  predicate ControlAdded(a: Tables, b: Tables, event: ControlEvent, now: nat, actor: string) {
    && |b.controls| == |a.controls| + 1 && a.controls <= b.controls
    && var r := b.controls[|a.controls|]; r.event == event && r.timestamp == now && r.actor == actor
  }

  predicate ValidOperator(actor: string, reason: string, namespace: Option<string>, tool: Option<string>) {
    && Label(actor) && Label(reason)
    && (namespace.Some? ==> Label(namespace.value)) && (tool.Some? ==> Label(tool.value))
  }

  /** Pausing pauses exactly the scope named. */
  lemma PausesExactly(t: Tables, actor: string, reason: string, namespace: Option<string>, tool: Option<string>, now: nat, scope: Scope)
    requires Names(scope, namespace, tool)
    ensures var tx := T.SetPause(t, actor, reason, namespace, tool, now);
            && (tx.reply.Returned? <==> ValidOperator(actor, reason, namespace, tool))
            && (tx.reply.Raised? ==> tx.tables == t)
            && (tx.reply.Returned? ==>
                  && tx.reply.value == Pause(now, actor, reason)
                  && tx.tables.pauses == t.pauses[scope := Pause(now, actor, reason)]
                  && tx.tables.limits == t.limits && RowsStay(t, tx.tables) && ControlAdded(t, tx.tables, PauseSet, now, actor))
  {
  }

  /** Clearing clears exactly the scope named, and says whether it was paused. */
  lemma ClearsExactly(t: Tables, actor: string, reason: string, namespace: Option<string>, tool: Option<string>, now: nat, scope: Scope)
    requires Names(scope, namespace, tool)
    ensures var tx := T.ClearPause(t, actor, reason, namespace, tool, now);
            && (tx.reply.Returned? <==> ValidOperator(actor, reason, namespace, tool))
            && (tx.reply.Returned? ==> tx.reply.value == (scope in t.pauses))
            && (tx.reply != Returned(true) ==> tx.tables == t)
            && (tx.reply == Returned(true) ==>
                  && tx.tables.pauses == t.pauses - {scope}
                  && tx.tables.limits == t.limits && RowsStay(t, tx.tables) && ControlAdded(t, tx.tables, PauseCleared, now, actor))
  {
  }

  /** A limit is configured as asked and enabled, or the call raises: on invalid input, or on a limit of another shape. */
  lemma ConfiguresExactly(t: Tables, limitId: string, spec: T.LimitSpec, actor: string, reason: string, now: nat, scope: Scope)
    requires Names(scope, spec.namespace, spec.tool)
    ensures var tx := T.ConfigureLimit(t, limitId, spec, actor, reason, now);
            && (tx.reply.Returned?
                <==> && T.ValidLimit(limitId, spec, actor, reason)
                     && (limitId in t.limits ==>
                           var old_ := t.limits[limitId];
                           old_.scope == scope && old_.window == spec.window && old_.valueArgument == spec.valueArgument))
            && (tx.reply.Raised? ==> tx.tables == t)
            && (tx.reply.Returned? ==>
                  && tx.tables.limits == t.limits[limitId := tx.reply.value]
                  && (var limit := tx.reply.value;
                      && limit.scope == scope && limit.window == spec.window && limit.valueArgument == spec.valueArgument
                      && limit.maxActions == spec.maxActions && limit.maxValue == spec.maxValue && limit.enabled
                      && limit.updatedAt == now && limit.updatedBy == actor && limit.reason == reason)
                  && tx.tables.pauses == t.pauses && RowsStay(t, tx.tables) && ControlAdded(t, tx.tables, LimitConfigured, now, actor))
  {
  }

  /** What an operator may ask of a limit. */
  lemma ValidLimits(limitId: string, spec: T.LimitSpec, actor: string, reason: string)
    ensures T.ValidLimit(limitId, spec, actor, reason)
       <==> && Label(limitId) && ValidOperator(actor, reason, spec.namespace, spec.tool)
            && 1 <= spec.window <= 9_223_372_036_854_775_807
            && (spec.maxActions.Some? ==> 1 <= spec.maxActions.value <= 9_223_372_036_854_775_807)
            && (spec.maxValue.Some? ==> 1 <= spec.maxValue.value <= 9_223_372_036_854_775_807)
            && (spec.maxActions.Some? || spec.maxValue.Some?)
            && (spec.valueArgument.Some? <==> spec.maxValue.Some?)
            && (spec.valueArgument.Some? ==>
                  && Label(spec.valueArgument.value)
                  && forall segment <- Segments(spec.valueArgument.value) ::
                       segment != "" && !IsSpace(segment[0]) && !IsSpace(segment[|segment| - 1]))
  {
  }

  /** Disabling keeps a limit's definition, happens once, and needs a limit. */
  lemma DisablesExactly(t: Tables, limitId: string, actor: string, reason: string, now: nat)
    ensures var tx := T.DisableLimit(t, limitId, actor, reason, now);
            && (tx.reply.Returned? <==> Label(limitId) && Label(actor) && Label(reason) && limitId in t.limits)
            && (tx.reply.Raised? ==> tx.tables == t)
            && (tx.reply.Returned? ==>
                  var before, after := t.limits[limitId], tx.reply.value;
                  && !after.enabled && tx.tables.limits == t.limits[limitId := after]
                  && tx.tables.pauses == t.pauses && RowsStay(t, tx.tables)
                  && if !before.enabled then tx.tables == t
                     else
                       && after == before.(enabled := false, updatedAt := now, updatedBy := actor, reason := reason)
                       && ControlAdded(t, tx.tables, LimitDisabled, now, actor))
  {
  }

  // ---------- listing ----------

  /** The rows listed: those that show the status, each once, by creation time and then by id. */
  ghost predicate Lists(t: Tables, rows: seq<Action>, status: Option<Status>, now: nat) {
    && InOrder(rows)
    && (forall row <- rows :: row.actionId in t.actions && row.status == SeenStatus(t.actions[row.actionId], now))
    && (forall id | id in t.actions ::
          (exists row <- rows :: row.actionId == id) <==> status.None? || SeenStatus(t.actions[id], now) == status.value)
  }

  predicate InOrder(rows: seq<Action>) {
    forall i, j | 0 <= i < j < |rows| :: TableOrder.Before(RankOf(rows[i]), RankOf(rows[j]))
  }

  ghost predicate RowsAreNamed(t: Tables) {
    forall id | id in t.actions :: t.actions[id].actionId == id
  }

  function RankOf(row: Action): TableOrder.Key {
    TableOrder.Key(row.createdAt, row.actionId)
  }

  lemma CreationOrderRanks(t: Tables)
    requires RowsAreNamed(t)
    ensures var ids := T.CreationOrder(t.actions);
            && (forall id :: id in ids <==> id in t.actions)
            && NamesRows(t, ids) && InOrder(RowsAt(t, ids))
  {
    var actions := t.actions;
    var keys := TableOrder.Sorted(T.CreationKeys(actions));
    var ids := T.CreationOrder(actions);
    forall i | 0 <= i < |ids| ensures keys[i] == RankOf(actions[ids[i]]) {
      assert keys[i] in T.CreationKeys(actions);
    }
    forall id | id in actions ensures id in ids {
      assert RankOf(actions[id]) in keys;
      var i :| 0 <= i < |keys| && keys[i] == RankOf(actions[id]);
      assert ids[i] == id;
    }
    forall i, j | 0 <= i < j < |ids| ensures ids[i] != ids[j] {
      NotBefore(keys[i]);
    }
  }

  predicate NamesRows(t: Tables, ids: seq<string>) {
    (forall i | 0 <= i < |ids| :: ids[i] in t.actions) && (forall i, j | 0 <= i < j < |ids| :: ids[i] != ids[j])
  }

  ghost predicate EachRefreshed(t: Tables, after: Tables, ids: seq<string>, now: nat) {
    && after.actions.Keys == t.actions.Keys && RowsAreNamed(after)
    && (forall id | id in t.actions :: RankOf(after.actions[id]) == RankOf(t.actions[id]))
    && (forall id | id in t.actions && id in ids :: after.actions[id].status == SeenStatus(t.actions[id], now))
    && (forall id | id in t.actions && id !in ids :: after.actions[id] == t.actions[id])
  }

  /** Refreshing rows one after another refreshes each of them as a read does. */
  lemma {:induction false} RefreshingEach(t: Tables, ids: seq<string>, now: nat)
    requires RowsAreNamed(t) && NamesRows(t, ids)
    ensures EachRefreshed(t, T.RefreshAll(t, ids, now), ids, now)
  {
    if ids != [] {
      RefreshesTheLast(t, ids, now);
      hide *;
      var shorter, last := ids[..|ids| - 1], ids[|ids| - 1];
      RefreshingEach(t, shorter, now);
      OneMore(t, T.RefreshAll(t, shorter, now), shorter, last, now);
    }
  }

  lemma RefreshesTheLast(t: Tables, ids: seq<string>, now: nat)
    requires NamesRows(t, ids) && ids != []
    ensures var shorter, last := ids[..|ids| - 1], ids[|ids| - 1];
            && NamesRows(t, shorter) && last in t.actions && last !in shorter && shorter + [last] == ids
            && T.RefreshAll(t, ids, now) == T.RefreshState(T.RefreshAll(t, shorter, now), last, now)
  {
    hide T.RefreshState;
  }

  lemma OneMore(t: Tables, before: Tables, ids: seq<string>, id: string, now: nat)
    requires EachRefreshed(t, before, ids, now) && id in t.actions && id !in ids
    ensures EachRefreshed(t, T.RefreshState(before, id, now), ids + [id], now)
  {
    hide T.RefreshState, SeenStatus, RankOf;
    RefreshingOne(before, id, now);
  }

  lemma RefreshingOne(t: Tables, id: string, now: nat)
    requires RowsAreNamed(t) && id in t.actions
    ensures var after := T.RefreshState(t, id, now);
            && after.actions.Keys == t.actions.Keys && RowsAreNamed(after)
            && (forall other | other in t.actions :: RankOf(after.actions[other]) == RankOf(t.actions[other]))
            && after.actions[id].status == SeenStatus(t.actions[id], now)
            && (forall other | other in t.actions && other != id :: after.actions[other] == t.actions[other])
  {
    RefreshIsARead(t, id, now);
    hide T.RefreshState, SeenStatus;
  }

  function RowsAt(t: Tables, ids: seq<string>): (rows: seq<Action>)
    requires forall i | 0 <= i < |ids| :: ids[i] in t.actions
    ensures |rows| == |ids| && forall i | 0 <= i < |ids| :: rows[i] == t.actions[ids[i]]
  {
    seq(|ids|, i requires 0 <= i < |ids| => t.actions[ids[i]])
  }

  /** Selecting by status drops exactly the others. */
  lemma {:induction false} SelectingByStatus(t: Tables, ids: seq<string>, status: Option<Status>)
    requires forall i | 0 <= i < |ids| :: ids[i] in t.actions
    ensures forall row :: row in T.WithStatus(t, ids, status)
                          <==> row in RowsAt(t, ids) && (status.None? || row.status == status.value)
  {
    if ids != [] {
      var n := |ids| - 1;
      SelectingByStatus(t, ids[..n], status);
      assert RowsAt(t, ids) == RowsAt(t, ids[..n]) + [t.actions[ids[n]]];
    }
  }

  /** Selecting keeps the order. */
  lemma {:induction false} SelectingKeepsOrder(t: Tables, ids: seq<string>, status: Option<Status>)
    requires NamesRows(t, ids) && InOrder(RowsAt(t, ids))
    ensures InOrder(T.WithStatus(t, ids, status))
  {
    if ids != [] {
      hide InOrder, RowsAt;
      var n := |ids| - 1;
      PrefixOfRows(t, ids, n);
      SelectingKeepsOrder(t, ids[..n], status);
      SelectingByStatus(t, ids[..n], status);
      LaterRowFollows(t, ids, T.WithStatus(t, ids[..n], status));
    } else {
      assert T.WithStatus(t, ids, status) == [];
    }
  }

  lemma PrefixOfRows(t: Tables, ids: seq<string>, n: nat)
    requires n <= |ids| && (forall i | 0 <= i < |ids| :: ids[i] in t.actions) && InOrder(RowsAt(t, ids))
    ensures RowsAt(t, ids[..n]) == RowsAt(t, ids)[..n] && InOrder(RowsAt(t, ids[..n]))
  {
    hide TableOrder.Before, RankOf;
  }

  lemma LaterRowFollows(t: Tables, ids: seq<string>, before: seq<Action>)
    requires ids != [] && (forall i | 0 <= i < |ids| :: ids[i] in t.actions) && InOrder(RowsAt(t, ids)) && InOrder(before)
    requires forall row <- before :: row in RowsAt(t, ids[..|ids| - 1])
    ensures InOrder(before + [t.actions[ids[|ids| - 1]]])
  {
    hide TableOrder.Before, RankOf;
    var n := |ids| - 1;
    forall i | 0 <= i < |before| ensures TableOrder.Before(RankOf(before[i]), RankOf(t.actions[ids[n]])) {
      var row := before[i];
      assert row in before && ids[..n] == ids[..|ids| - 1];
      var k :| 0 <= k < n && RowsAt(t, ids[..n])[k] == before[i];
      assert RowsAt(t, ids)[k] == before[i] && RowsAt(t, ids)[n] == t.actions[ids[n]];
    }
  }

  /** A listing holds exactly the rows that read as the status asked for. */
  lemma ListsExactly(t: Tables, status: Option<Status>, now: nat)
    requires RowsAreNamed(t)
    ensures var tx := T.ListActions(t, status, now);
            tx.reply.Returned? && Lists(t, tx.reply.value, status, now)
  {
    hide *;
    CreationOrderRanks(t);
    var ids := T.CreationOrder(t.actions);
    RefreshingEach(t, ids, now);
    var t1 := T.RefreshAll(t, ids, now);
    StillInOrder(t, t1, ids, now);
    SelectingByStatus(t1, ids, status);
    SelectingKeepsOrder(t1, ids, status);
    ListedRows(t, t1, ids, T.WithStatus(t1, ids, status), status, now);
    ListingUnfolds(t, status, now);
  }

  lemma StillInOrder(t: Tables, t1: Tables, ids: seq<string>, now: nat)
    requires EachRefreshed(t, t1, ids, now) && NamesRows(t, ids) && InOrder(RowsAt(t, ids))
    ensures NamesRows(t1, ids) && InOrder(RowsAt(t1, ids))
  {
    hide TableOrder.Before, RankOf;
    forall i, j | 0 <= i < j < |ids| ensures TableOrder.Before(RankOf(RowsAt(t1, ids)[i]), RankOf(RowsAt(t1, ids)[j])) {
      assert TableOrder.Before(RankOf(RowsAt(t, ids)[i]), RankOf(RowsAt(t, ids)[j]));
    }
  }

  lemma ListingUnfolds(t: Tables, status: Option<Status>, now: nat)
    ensures var ids := T.CreationOrder(t.actions);
            T.ListActions(t, status, now).reply == Returned(T.WithStatus(T.RefreshAll(t, ids, now), ids, status))
  {
    hide T.CreationOrder, T.RefreshAll, T.WithStatus;
  }

  lemma ListedRows(t: Tables, t1: Tables, ids: seq<string>, rows: seq<Action>, status: Option<Status>, now: nat)
    requires EachRefreshed(t, t1, ids, now) && (forall id :: id in ids <==> id in t.actions) && InOrder(rows)
    requires forall row :: row in rows <==> row in RowsAt(t1, ids) && (status.None? || row.status == status.value)
    ensures Lists(t, rows, status, now)
  {
    hide InOrder, SeenStatus, RowsAt, RankOf;
    forall row <- rows ensures row.actionId in t.actions && row == t1.actions[row.actionId] {
      RowsAreTheirs(t1, ids, row);
    }
    forall id | id in t.actions
      ensures (exists row <- rows :: row.actionId == id) <==> status.None? || SeenStatus(t.actions[id], now) == status.value
    {
      RowsAreTheirs(t1, ids, t1.actions[id]);
    }
  }

  lemma RowsAreTheirs(t: Tables, ids: seq<string>, row: Action)
    requires RowsAreNamed(t) && forall i | 0 <= i < |ids| :: ids[i] in t.actions
    ensures row in RowsAt(t, ids) <==> row.actionId in ids && t.actions[row.actionId] == row
  {
    if row.actionId in ids {
      var i :| 0 <= i < |ids| && ids[i] == row.actionId;
      assert RowsAt(t, ids)[i] == t.actions[row.actionId];
    }
  }

  lemma NotBefore(key: TableOrder.Key)
    ensures !TableOrder.Before(key, key)
  {
    TableOrder.TextLessIsTotal(key.id, key.id);
  }
}
