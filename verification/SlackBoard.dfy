/** The Slack notification queue: one notification per pending action, posted by leased claims with bounded retries. */
module SlackBoards {
  import opened Basics
  import opened Retries
  import opened RuntimeModels
  import opened Sums
  import TableOrder

  datatype NotificationStatus = Waiting | Posting | Posted | Obsolete | Dead | Settled

  /** The client message id is derived from the action id and the digest alone, so they stand for it. */
  datatype Notification = Notification(
    digest: Digest, channel: string, status: NotificationStatus, attempts: nat, nextAttemptAt: nat,
    lease: Option<nat>, owner: Option<string>, messageTs: Option<string>, statusCode: Option<int>, error: Option<string>,
    decidedBy: Option<string>, decision: Option<Decision>, decidedAt: Option<nat>)

  type Board = map<string, Notification>

  datatype SlackError = InvalidInput | BindingChanged | NotFound | NotOwned | NotDead | Runtime(error: Error)

  datatype Tx<+T> = Tx(board: Board, reply: Outcome<T, SlackError>)

  datatype Config = Config(channel: string, maxAttempts: Tries, initialBackoff: nat, maxBackoff: nat, tenant: Option<Tenant>)

  /** The one organization, and the namespaces of it, that a deployment may see. */
  datatype Tenant = Tenant(organization: string, namespaces: set<string>)

  predicate CanAccess(config: Config, action: Action) {
    config.tenant.None? || (action.organization == config.tenant.value.organization && action.namespace in config.tenant.value.namespaces)
  }

  // ---------- texts ----------

  predicate IsDigit(c: char) {
    '0' <= c <= '9'
  }

  /** `[A-Za-z0-9._-]{1,64}` */
  predicate SafeCode(text: string) {
    1 <= |text| <= 64 && forall c <- text :: IsDigit(c) || 'A' <= c <= 'Z' || 'a' <= c <= 'z' || c in "._-"
  }

  function SafeCodeOr(text: string): (code: string)
    ensures SafeCode(code)
  {
    if SafeCode(text) then text else "SlackAPIError"
  }

  predicate Digits(text: string) {
    1 <= |text| <= 20 && forall c <- text :: IsDigit(c)
  }

  /** `[0-9]{1,20}\.[0-9]{1,20}` */
  predicate MessageTs(text: string) {
    exists dot | 0 <= dot < |text| :: text[dot] == '.' && Digits(text[..dot]) && Digits(text[dot + 1..])
  }

  function Decimal(n: nat): string {
    (if n < 10 then "" else Decimal(n / 10)) + ["0123456789"[n % 10]]
  }

  function Shown(n: int): string {
    if n < 0 then "-" + Decimal(-n) else Decimal(n)
  }

  // ---------- transactions ----------

  function Enqueue(b: Board, actionId: string, digest: Digest, channel: string, now: nat): Tx<bool> {
    if actionId in b then
      var changed := b[actionId].digest != digest || b[actionId].channel != channel;
      Tx(b, if changed then Raised(BindingChanged) else Returned(false))
    else
      Tx(b[actionId := Notification(digest, channel, Waiting, 0, now, None, None, None, None, None, None, None, None)], Returned(true))
  }

  datatype Claimed = Claimed(actionId: string, digest: Digest, channel: string, attempts: Tries)

  predicate Abandoned(n: Notification, now: nat) {
    n.status == Posting && n.lease.Some? && n.lease.value <= now
  }

  function Reclaimed(b: Board, now: nat): Board {
    map id | id in b :: if Abandoned(b[id], now) then b[id].(status := Waiting, owner := None, lease := None, nextAttemptAt := now) else b[id]
  }

  predicate Due(n: Notification, now: nat) {
    n.status == Waiting && n.nextAttemptAt <= now
  }

  function RankOf(b: Board, id: string): TableOrder.Key
    requires id in b
  {
    TableOrder.Key(b[id].nextAttemptAt, id)
  }

  function DueKeys(b: Board, now: nat): set<TableOrder.Key> {
    set id | id in b && Due(b[id], now) :: RankOf(b, id)
  }

  /** The due notification that has waited longest; ties go by action id. */
  function FirstDue(b: Board, now: nat): (r: Option<string>)
    ensures r.Some? ==> r.value in b && Due(b[r.value], now)
    ensures r.Some? ==> forall id | id in b && Due(b[id], now) :: id == r.value || TableOrder.Before(RankOf(b, r.value), RankOf(b, id))
    ensures r.None? ==> forall id | id in b :: !Due(b[id], now)
  {
    var order := TableOrder.Sorted(DueKeys(b, now));
    assert forall id | id in b && Due(b[id], now) :: RankOf(b, id) in order;
    if order == [] then None
    else
      assert order[0] in DueKeys(b, now);
      Some(order[0].id)
  }

  function ClaimDue(b: Board, lease: nat, worker: string, now: nat): Tx<Option<Claimed>> {
    if Blank(worker) then Tx(b, Raised(InvalidInput))
    else
      var b1 := Reclaimed(b, now);
      var first := FirstDue(b1, now);
      if first.None? then Tx(b1, Returned(None))
      else
        var n := b1[first.value];
        Tx(b1[first.value := n.(status := Posting, attempts := n.attempts + 1, owner := Some(worker), lease := Some(now + lease))],
           Returned(Some(Claimed(first.value, n.digest, n.channel, n.attempts + 1))))
  }

  predicate Owned(b: Board, id: string, worker: string) {
    id in b && b[id].status == Posting && b[id].owner == Some(worker)
  }

  function Ownership(b: Board, id: string, worker: string): Option<SlackError> {
    if id !in b then Some(NotFound) else if !Owned(b, id, worker) then Some(NotOwned) else None
  }

  function MarkPosted(b: Board, id: string, worker: string, ts: string, code: int): Tx<()> {
    if !MessageTs(ts) || !(100 <= code <= 599) then Tx(b, Raised(InvalidInput))
    else if Ownership(b, id, worker).Some? then Tx(b, Raised(Ownership(b, id, worker).value))
    else
      Tx(b[id := b[id].(status := Posted, messageTs := Some(ts), statusCode := Some(code), error := None, owner := None,
                        lease := None)],
         Returned(()))
  }

  /** Exponential, lengthened to what the server asks for, never above the maximum. */
  function Backoff(config: Config, attempts: Tries, retryAfter: Option<nat>): (wait: nat)
    ensures wait <= config.maxBackoff && wait >= Wait(config.initialBackoff, config.maxBackoff, attempts)
    ensures retryAfter.Some? ==> wait >= Smaller(retryAfter.value, config.maxBackoff)
  {
    var delay := Wait(config.initialBackoff, config.maxBackoff, attempts);
    if retryAfter.None? then delay else Smaller(if delay >= retryAfter.value then delay else retryAfter.value, config.maxBackoff)
  }

  /** True means given up. */
  function MarkFailed(b: Board, claimed: Claimed, worker: string, config: Config, code: Option<int>, error: string,
                      retryable: bool,
                      retryAfter: Option<nat>, now: nat): Tx<bool> {
    if !SafeCode(error) then Tx(b, Raised(InvalidInput))
    else if Ownership(b, claimed.actionId, worker).Some? then Tx(b, Raised(Ownership(b, claimed.actionId, worker).value))
    else
      var terminal := !retryable || claimed.attempts >= config.maxAttempts;
      Tx(b[claimed.actionId := b[claimed.actionId].(
             status := if terminal then Dead else Waiting,
             nextAttemptAt := if terminal then now else now + Backoff(config, claimed.attempts, retryAfter),
             statusCode := code, error := Some(error), owner := None, lease := None)],
         Returned(terminal))
  }

  function MarkObsolete(b: Board, id: string, worker: string, reason: string): Tx<()> {
    if !SafeCode(reason) then Tx(b, Raised(InvalidInput))
    else if Ownership(b, id, worker).Some? then Tx(b, Raised(Ownership(b, id, worker).value))
    else Tx(b[id := b[id].(status := Obsolete, error := Some(reason), owner := None, lease := None)], Returned(()))
  }

  /** Applies in any status, and leaves an owner and a lease in place. */
  function MarkDecided(b: Board, id: string, digest: Digest, reviewer: string, decision: Decision, now: nat): Tx<()> {
    if id !in b || b[id].digest != digest then Tx(b, Raised(BindingChanged))
    else Tx(b[id := b[id].(status := Settled, decidedBy := Some(reviewer), decision := Some(decision), decidedAt := Some(now))], Returned(()))
  }

  function RetryDead(b: Board, id: string, now: nat): Tx<Notification> {
    if id !in b then Tx(b, Raised(NotFound))
    else if b[id].status != Dead then Tx(b, Raised(NotDead))
    else
      var n := b[id].(status := Waiting, attempts := 0, nextAttemptAt := now, owner := None, lease := None, error := None);
      Tx(b[id := n], Returned(n))
  }

  /** One notification for every listed action the deployment may see; a changed binding stops the pass. */
  function EnqueueAll(b: Board, actions: seq<Action>, config: Config, clock: nat -> nat): Tx<nat> {
    if actions == [] then Tx(b, Returned(0))
    else
      var k := |actions| - 1;
      var before := EnqueueAll(b, actions[..k], config, clock);
      if before.reply.Raised? || !CanAccess(config, actions[k]) then before
      else
        var tx := Enqueue(before.board, actions[k].actionId, actions[k].digest, config.channel, clock(k));
        Tx(tx.board, if tx.reply.Raised? then Raised(tx.reply.error) else Returned(before.reply.value + if tx.reply.value then 1 else 0))
  }

  lemma EnqueueKeepsOthers(b: Board, id: string, digest: Digest, channel: string, now: nat)
    ensures var tx := Enqueue(b, id, digest, channel, now);
            && (forall other | other in b :: other in tx.board && tx.board[other] == b[other])
            && (forall other | other in tx.board && other !in b :: other == id)
            && (tx.reply.Returned? ==> id in tx.board && tx.board[id].digest == digest && tx.board[id].channel == channel)
  {
  }

  /** A filling pass that returns leaves every listed action it may see with a notification bound to its digest. */
  lemma {:induction false} EnqueueAllCovers(b: Board, actions: seq<Action>, config: Config, clock: nat -> nat)
    ensures var tx := EnqueueAll(b, actions, config, clock);
            && (forall id | id in b :: id in tx.board && tx.board[id] == b[id])
            && (forall id | id in tx.board && id !in b :: exists a <- actions :: a.actionId == id && CanAccess(config, a))
            && (tx.reply.Returned? ==>
                  forall a <- actions | CanAccess(config, a) ::
                    a.actionId in tx.board && tx.board[a.actionId].digest == a.digest && tx.board[a.actionId].channel == config.channel)
  {
    if actions != [] {
      var k := |actions| - 1;
      hide Enqueue, CanAccess;
      var before := EnqueueAll(b, actions[..k], config, clock);
      EnqueueKeepsOthers(before.board, actions[k].actionId, actions[k].digest, config.channel, clock(k));
      EnqueueAllCovers(b, actions[..k], config, clock);
      assert actions == actions[..k] + [actions[k]];
    }
  }

  /** A deployment of one organization sees the actions of that organization in its namespaces; any other sees all. */
  predicate Sees(config: Config, row: Action) {
    match config.tenant
    case None => true
    case Some(Tenant(organization, namespaces)) => row.organization == organization && row.namespace in namespaces
  }

  lemma AccessIsSight(config: Config)
    ensures forall row :: CanAccess(config, row) <==> Sees(config, row)
  {
  }

  /**
   * A filling pass returns exactly when no listed action it sees changed its digest or channel. Then it has added one
   * notification for each action it sees that had none, and no other, and counts them.
   */
  lemma {:induction false} EnqueueAllExactly(b: Board, actions: seq<Action>, config: Config, clock: nat -> nat)
    requires forall i, j | 0 <= i < j < |actions| :: actions[i].actionId != actions[j].actionId
    ensures var tx := EnqueueAll(b, actions, config, clock);
            && (tx.reply.Returned? <==> forall a <- actions | Sees(config, a) && a.actionId in b ::
                                          b[a.actionId].digest == a.digest && b[a.actionId].channel == config.channel)
            && (tx.reply.Returned? ==> |tx.board| == |b| + tx.reply.value)
            && (tx.reply.Returned? ==> forall id :: id in tx.board <==> id in b || exists a <- actions :: Sees(config, a) && a.actionId == id)
  {
    if actions == [] {
      assert EnqueueAll(b, actions, config, clock) == Tx(b, Returned(0));
    } else {
      var k := |actions| - 1;
      var last := actions[k];
      AccessIsSight(config);
      hide Enqueue, CanAccess, Sees;
      EnqueueAllExactly(b, actions[..k], config, clock);
      LastIsUntouched(b, actions, config, clock);
      var before := EnqueueAll(b, actions[..k], config, clock);
      EnqueueAdds(before.board, last.actionId, last.digest, config.channel, clock(k));
      assert forall a :: a in actions <==> a in actions[..k] || a == last;
    }
  }

  lemma LastIsUntouched(b: Board, actions: seq<Action>, config: Config, clock: nat -> nat)
    requires actions != [] && forall i, j | 0 <= i < j < |actions| :: actions[i].actionId != actions[j].actionId
    ensures var before, id := EnqueueAll(b, actions[..|actions| - 1], config, clock).board, actions[|actions| - 1].actionId;
            (id in before <==> id in b) && (id in b ==> before[id] == b[id])
  {
    EnqueueAllCovers(b, actions[..|actions| - 1], config, clock);
    hide EnqueueAll, CanAccess;
    forall a <- actions[..|actions| - 1] ensures a.actionId != actions[|actions| - 1].actionId {
      var i :| 0 <= i < |actions| - 1 && actions[i] == a;
    }
  }

  lemma EnqueueAdds(b: Board, id: string, digest: Digest, channel: string, now: nat)
    ensures var tx := Enqueue(b, id, digest, channel, now);
            && (tx.reply.Returned? <==> (id in b ==> b[id].digest == digest && b[id].channel == channel))
            && (tx.reply.Returned? ==> |tx.board| == |b| + (if tx.reply.value then 1 else 0) && tx.board.Keys == b.Keys + {id})
  {
    if id !in b {
      var tx := Enqueue(b, id, digest, channel, now);
      assert tx.board.Keys == b.Keys + {id};
    }
  }

  lemma {:induction false} FailedFillStops(b: Board, actions: seq<Action>, k: nat, config: Config, clock: nat -> nat)
    requires k <= |actions| && EnqueueAll(b, actions[..k], config, clock).reply.Raised?
    ensures EnqueueAll(b, actions, config, clock) == EnqueueAll(b, actions[..k], config, clock)
  {
    if k < |actions| {
      assert actions[..|actions| - 1][..k] == actions[..k];
      FailedFillStops(b, actions[..|actions| - 1], k, config, clock);
    } else {
      assert actions[..k] == actions;
    }
  }

  // ---------- the API's answer ----------

  datatype Response =
    | Response(statusCode: int, ok: bool, error: Option<string>, channel: Option<string>, ts: Option<string>, retryAfter: Option<nat>)
    | Failed(exception: string)

  /** A posted message, or a failure as it is recorded. */
  datatype Judgement =
    | Accepted(ts: string, statusCode: int)
    | Refused(code: string, answered: Option<int>, retryable: bool, retryAfter: Option<nat>)

  const RETRYABLE := {"ratelimited", "internal_error", "fatal_error", "service_unavailable"}

  function Judged(r: Response, channel: string): (j: Judgement)
    ensures j.Accepted? <==> r.Response? && 200 <= r.statusCode < 300 && r.ok && r.channel == Some(channel) && r.ts.Some?
    ensures j.Refused? ==> SafeCode(j.code)
  {
    match r
    case Failed(exception) => Refused(SafeCodeOr(exception), None, true, None)
    case Response(statusCode, ok, error, answeredChannel, ts, retryAfter) =>
      if !(200 <= statusCode < 300 && ok) then
        var code := if error.Some? then error.value else "HTTP" + Shown(statusCode);
        Refused(SafeCodeOr(code), Some(statusCode), statusCode == 429 || statusCode >= 500 || code in RETRYABLE, retryAfter)
      else if answeredChannel != Some(channel) || ts.None? then Refused(SafeCodeOr("InvalidPostResponse"), Some(statusCode), false, None)
      else Accepted(ts.value, statusCode)
  }

  function StatusTitle(status: Status): string {
    match status
    case Pending => "Pending"
    case Approved => "Approved"
    case Rejected => "Rejected"
    case Denied => "Denied"
    case Executing => "Executing"
    case Succeeded => "Succeeded"
    case Unknown => "Unknown"
    case Expired => "Expired"
  }

  /** Why a notification is obsolete, given its action if there is one. */
  function Obsolescence(action: Option<Action>, digest: Digest): Option<string> {
    match action
    case None => Some("ActionMissing")
    case Some(row) =>
      if row.digest != digest then Some("BindingChanged") else if row.status != Pending then Some("Status" + StatusTitle(row.status)) else None
  }

  // ---------- the budget of a pass ----------

  /** Claims a notification can still cost; posted, settled, obsolete and dead ones cost nothing. */
  function Cost(b: Board, maxTries: nat, id: string): nat {
    if id !in b || b[id].status !in {Waiting, Posting} then 0 else Left(maxTries, b[id].attempts)
  }

  ghost function Budget(b: Board, maxTries: nat): int {
    Sum(b.Keys, id => Cost(b, maxTries, id))
  }

  lemma BudgetIsNotNegative(b: Board, maxTries: nat)
    ensures Budget(b, maxTries) >= 0
  {
    SumIsNotNegative(b.Keys, id => Cost(b, maxTries, id));
  }

  lemma BudgetChanges(a: Board, b: Board, maxTries: nat, id: string)
    requires id in a && a.Keys == b.Keys
    requires forall other | other in a && other != id :: a[other].status == b[other].status && a[other].attempts == b[other].attempts
    ensures Budget(b, maxTries) == Budget(a, maxTries) - Cost(a, maxTries, id) + Cost(b, maxTries, id)
    ensures Budget(a, maxTries) >= Cost(a, maxTries, id)
  {
    SumChangesAt(a.Keys, k => Cost(a, maxTries, k), k => Cost(b, maxTries, k), id);
    SumTakesOut(a.Keys, k => Cost(a, maxTries, k), id);
    SumIsNotNegative(a.Keys - {id}, k => Cost(a, maxTries, k));
  }

  lemma ReclaimSpendsNothing(b: Board, maxTries: nat, now: nat)
    ensures Budget(Reclaimed(b, now), maxTries) == Budget(b, maxTries)
  {
    assert Reclaimed(b, now).Keys == b.Keys;
    SumOfEqualTerms(b.Keys, k => Cost(b, maxTries, k), k => Cost(Reclaimed(b, now), maxTries, k));
  }

  /** What a claim does: it hands one waiting notification to the worker, and is still to be paid for. */
  lemma ClaimSpends(b: Board, maxTries: nat, lease: nat, worker: string, now: nat)
    ensures var tx := ClaimDue(b, lease, worker, now);
            && tx.board.Keys == b.Keys
            && (tx.reply.Raised? ==> tx.board == b)
            && (tx.reply == Returned(None) ==>
                  Budget(tx.board, maxTries) == Budget(b, maxTries) && forall id | id in tx.board :: !Due(tx.board[id], now))
            && (tx.reply.Returned? && tx.reply.value.Some? ==> Holding(b, tx.board, maxTries, tx.reply.value.value, worker))
  {
    hide FirstDue, Budget;
    ReclaimSpendsNothing(b, maxTries, now);
    var tx := ClaimDue(b, lease, worker, now);
    if tx.reply.Returned? && tx.reply.value.Some? {
      BudgetChanges(Reclaimed(b, now), tx.board, maxTries, tx.reply.value.value.actionId);
    }
  }

  ghost predicate Holding(before: Board, held: Board, maxTries: nat, claimed: Claimed, worker: string) {
    && Owned(held, claimed.actionId, worker)
    && held[claimed.actionId].attempts == claimed.attempts && held[claimed.actionId].digest == claimed.digest
    && held[claimed.actionId].channel == claimed.channel
    && Budget(held, maxTries) - Cost(held, maxTries, claimed.actionId) + Left(maxTries, claimed.attempts - 1) == Budget(before, maxTries)
    && Budget(before, maxTries) >= 1
  }

  /** Finishing a held notification, or failing it before its last attempt, spends the budget. */
  lemma FinishSpends(before: Board, held: Board, maxTries: nat, claimed: Claimed, worker: string, n: Notification)
    requires Holding(before, held, maxTries, claimed, worker)
    requires n.status !in {Waiting, Posting} || (n.status == Waiting && n.attempts == claimed.attempts < maxTries)
    ensures Budget(held[claimed.actionId := n], maxTries) < Budget(before, maxTries)
  {
    hide Budget;
    BudgetChanges(held, held[claimed.actionId := n], maxTries, claimed.actionId);
  }

  // ---------- how many are finished ----------

  function WithStatus(b: Board, status: NotificationStatus): set<string> {
    set id | id in b && b[id].status == status
  }

  function Having(b: Board, status: NotificationStatus): nat {
    |WithStatus(b, status)|
  }

  /** The statuses a pass can finish a notification in. */
  const FINISHED := {Posted, Dead, Obsolete}

  lemma ClaimFinishesNone(b: Board, lease: nat, worker: string, now: nat, status: NotificationStatus)
    requires status in FINISHED
    ensures Having(ClaimDue(b, lease, worker, now).board, status) == Having(b, status)
  {
    hide FirstDue;
    assert WithStatus(ClaimDue(b, lease, worker, now).board, status) == WithStatus(b, status);
  }

  lemma RowMovesCount(b: Board, id: string, n: Notification, status: NotificationStatus)
    requires id in b && b[id].status == Posting && status in FINISHED
    ensures Having(b[id := n], status) == Having(b, status) + if n.status == status then 1 else 0
  {
    var others := WithStatus(b, status);
    assert id !in others;
    var after := b[id := n];
    forall k ensures k in WithStatus(after, status) <==> k in others || (k == id && n.status == status) {
      assert k != id ==> (k in after <==> k in b);
    }
    hide WithStatus;
    assert WithStatus(after, status) == if n.status == status then others + {id} else others;
  }

  // ---------- bindings ----------

  datatype Op =
    | Enqueuing(actionId: string, digest: Digest, channel: string, now: nat)
    | Claiming(lease: nat, worker: string, now: nat)
    | PostedOp(actionId: string, worker: string, ts: string, code: int)
    | FailedOp(claimed: Claimed, worker: string, config: Config, answered: Option<int>, error: string, retryable: bool,
               retryAfter: Option<nat>, now: nat)
    | ObsoleteOp(actionId: string, worker: string, reason: string)
    | DecidedOp(actionId: string, digest: Digest, reviewer: string, decision: Decision, now: nat)
    | Retrying(actionId: string, now: nat)

  function Apply(b: Board, op: Op): Board {
    match op
    case Enqueuing(id, digest, channel, now) => Enqueue(b, id, digest, channel, now).board
    case Claiming(lease, worker, now) => ClaimDue(b, lease, worker, now).board
    case PostedOp(id, worker, ts, code) => MarkPosted(b, id, worker, ts, code).board
    case FailedOp(claimed, worker, config, code, error, retryable, after, now) =>
      MarkFailed(b, claimed, worker, config, code, error, retryable, after, now).board
    case ObsoleteOp(id, worker, reason) => MarkObsolete(b, id, worker, reason).board
    case DecidedOp(id, digest, reviewer, decision, now) => MarkDecided(b, id, digest, reviewer, decision, now).board
    case Retrying(id, now) => RetryDead(b, id, now).board
  }

  function After(b: Board, ops: seq<Op>): Board {
    if ops == [] then b else Apply(After(b, ops[..|ops| - 1]), ops[|ops| - 1])
  }

  /** Settled and posted notifications are not posted again, and what a notification is bound to never changes. */
  predicate RowOnward(a: Notification, b: Notification) {
    && b.digest == a.digest && b.channel == a.channel
    && (a.messageTs.Some? && a.status in {Posted, Settled} ==> b.messageTs == a.messageTs && b.status in {Posted, Settled})
    && (a.status == Settled ==> b.status == Settled)
    && (a.status == Obsolete ==> b.status in {Obsolete, Settled})
  }

  predicate Onward(a: Board, b: Board) {
    forall id | id in a :: id in b && RowOnward(a[id], b[id])
  }

  lemma ClaimGoesOnward(b: Board, lease: nat, worker: string, now: nat)
    ensures Onward(b, ClaimDue(b, lease, worker, now).board)
  {
    hide FirstDue;
  }

  lemma FailureGoesOnward(b: Board, claimed: Claimed, worker: string, config: Config, code: Option<int>, error: string,
                          retryable: bool,
                          retryAfter: Option<nat>, now: nat)
    ensures Onward(b, MarkFailed(b, claimed, worker, config, code, error, retryable, retryAfter, now).board)
  {
    hide Backoff, SafeCode;
  }

  lemma ApplyGoesOnward(b: Board, op: Op)
    ensures Onward(b, Apply(b, op))
  {
    hide ClaimDue, MarkFailed, MessageTs, SafeCode;
    if op.Claiming? {
      ClaimGoesOnward(b, op.lease, op.worker, op.now);
    } else if op.FailedOp? {
      FailureGoesOnward(b, op.claimed, op.worker, op.config, op.answered, op.error, op.retryable, op.retryAfter, op.now);
    }
  }

  /** Whatever happens to the queue: a notification keeps its digest and channel, and a posted message keeps its timestamp. */
  lemma {:induction false} BindingsAreForever(b: Board, ops: seq<Op>)
    ensures Onward(b, After(b, ops))
  {
    if ops != [] {
      BindingsAreForever(b, ops[..|ops| - 1]);
      ApplyGoesOnward(After(b, ops[..|ops| - 1]), ops[|ops| - 1]);
      hide Apply;
    }
  }

  lemma OnwardChains(a: Board, b: Board, c: Board)
    requires Onward(a, b) && Onward(b, c)
    ensures Onward(a, c)
  {
    forall id | id in a ensures id in c && RowOnward(a[id], c[id]) {
      assert id in b && RowOnward(a[id], b[id]) && RowOnward(b[id], c[id]);
    }
  }

  lemma OnwardAtOnce(b: Board)
    ensures Onward(b, b)
  {
  }

  // ---------- what ends a round ----------

  lemma ObsoleteSpends(before: Board, held: Board, maxTries: nat, claimed: Claimed, worker: string, reason: string)
    requires Holding(before, held, maxTries, claimed, worker) && SafeCode(reason)
    ensures var tx := MarkObsolete(held, claimed.actionId, worker, reason);
            && tx.reply.Returned? && Onward(held, tx.board) && Budget(tx.board, maxTries) < Budget(before, maxTries)
            && claimed.actionId in tx.board && tx.board[claimed.actionId].status == Obsolete
            && tx.board[claimed.actionId].digest == claimed.digest
  {
    var tx := MarkObsolete(held, claimed.actionId, worker, reason);
    ApplyGoesOnward(held, ObsoleteOp(claimed.actionId, worker, reason));
    hide Budget, SafeCode, Onward;
    FinishSpends(before, held, maxTries, claimed, worker, tx.board[claimed.actionId]);
  }

  lemma PostSpends(before: Board, held: Board, maxTries: nat, claimed: Claimed, worker: string, ts: string, code: int)
    requires Holding(before, held, maxTries, claimed, worker)
    ensures var tx := MarkPosted(held, claimed.actionId, worker, ts, code);
            && Onward(held, tx.board)
            && (tx.reply.Returned? ==>
                  && Budget(tx.board, maxTries) < Budget(before, maxTries)
                  && claimed.actionId in tx.board && tx.board[claimed.actionId].status == Posted
                  && tx.board[claimed.actionId].digest == claimed.digest)
  {
    var tx := MarkPosted(held, claimed.actionId, worker, ts, code);
    ApplyGoesOnward(held, PostedOp(claimed.actionId, worker, ts, code));
    hide Budget, MessageTs, Onward;
    if tx.reply.Returned? {
      FinishSpends(before, held, maxTries, claimed, worker, tx.board[claimed.actionId]);
    }
  }

  lemma FailureSpends(before: Board, held: Board, config: Config, claimed: Claimed, worker: string, code: Option<int>,
                      error: string,
                      retryable: bool, retryAfter: Option<nat>, now: nat)
    requires Holding(before, held, config.maxAttempts, claimed, worker) && SafeCode(error)
    ensures var tx := MarkFailed(held, claimed, worker, config, code, error, retryable, retryAfter, now);
            tx.reply.Returned? && Onward(held, tx.board) && Budget(tx.board, config.maxAttempts) < Budget(before, config.maxAttempts)
  {
    var tx := MarkFailed(held, claimed, worker, config, code, error, retryable, retryAfter, now);
    FailureGoesOnward(held, claimed, worker, config, code, error, retryable, retryAfter, now);
    hide Budget, SafeCode, Onward, Backoff;
    FinishSpends(before, held, config.maxAttempts, claimed, worker, tx.board[claimed.actionId]);
  }

  lemma StatusTitlesAreSafe(status: Status)
    ensures SafeCode("Status" + StatusTitle(status))
  {
  }

  lemma FixedReasonsAreSafe()
    ensures SafeCode("ActionMissing") && SafeCode("BindingChanged")
  {
  }
}
