/**
 * The runtime store's transactions as functions of the tables. A transaction that raises leaves the tables
 * as they were: the database rolls back. The clock is read by the caller and may take any value.
 */
module Transactions {
  import opened Basics
  import opened JsonValues
  import opened RuntimeModels
  import TableOrder

  datatype Tx<+T> = Tx(tables: Tables, reply: Outcome<T, Error>)

  const RUNTIME: Option<string> := Some("runtime")
  const POLICY: Option<string> := Some("policy")
  const LEASE_LOST := "ExecutionLeaseExpired"

  // ---------- receipts ----------

  function AppendReceipt(receipts: seq<Receipt>, id: string, event: Event, now: nat, digest: Digest,
                         actor: Option<string>, detail: Option<Text>): seq<Receipt>
  {
    var previous := if receipts == [] then None else Some(receipts[|receipts| - 1].receiptHash);
    receipts + [Receipt(|receipts| + 1, id, event, now, digest, actor, detail, previous,
                        Hash(id, event, now, digest, actor, detail, previous))]
  }

  function AppendControl(controls: seq<ControlReceipt>, event: ControlEvent, now: nat, actor: string,
                         scope: Json, detail: Text): seq<ControlReceipt>
  {
    var previous := if controls == [] then None else Some(controls[|controls| - 1].receiptHash);
    controls + [ControlReceipt(|controls| + 1, event, now, actor, scope, detail, previous,
                               ControlHash(event, now, actor, scope, detail, previous))]
  }

  /** Writes one action row and the receipt that explains it. */
  function Record(t: Tables, id: string, row: Action, event: Event, now: nat, actor: Option<string>,
                  detail: Option<Text>): Tables {
    t.(actions := t.actions[id := row],
       index := t.index[RowKey(row) := id],
       receipts := AppendReceipt(t.receipts, id, event, now, row.digest, actor, detail))
  }

  /** A receipt about a row that stays as it is. */
  function Note(t: Tables, id: string, row: Action, event: Event, now: nat, detail: Option<Text>): Tables {
    t.(receipts := AppendReceipt(t.receipts, id, event, now, row.digest, RUNTIME, detail))
  }

  // ---------- lapsed approvals and leases ----------

  predicate ApprovalIsLate(row: Action, now: nat) {
    row.status in {Pending, Approved} && row.expiresAt.Some? && now >= row.expiresAt.value
  }

  predicate LeaseIsLate(row: Action, now: nat) {
    row.status == Executing && row.leaseExpiresAt.Some? && now >= row.leaseExpiresAt.value
  }

  function RefreshExpiry(t: Tables, id: string, now: nat): Tables
    requires id in t.actions
  {
    var row := t.actions[id];
    if ApprovalIsLate(row, now) then
      Record(t, id, row.(status := Expired, updatedAt := now), ApprovalLapsed, now, RUNTIME, None)
    else t
  }

  function RefreshState(t: Tables, id: string, now: nat): (r: Tables)
    requires id in t.actions
    ensures id in r.actions
  {
    var t1 := RefreshExpiry(t, id, now);
    var row := t1.actions[id];
    if LeaseIsLate(row, now) then
      Record(t1, id,
             row.(status := Unknown, updatedAt := now, error := Some(LEASE_LOST), leaseExpiresAt := None),
             ExecutionAbandoned, now, RUNTIME, Some(Raw(LEASE_LOST)))
    else t1
  }

  // ---------- submission and decisions ----------

  /** `SELECT ... WHERE namespace = ? AND tool_name = ? AND idempotency_key = ?` */
  function FindByKey(t: Tables, key: ActionKey): (r: Option<string>)
    ensures r.Some? ==> r.value in t.actions
  {
    if key in t.index && t.index[key] in t.actions then Some(t.index[key]) else None
  }

  function EarlierStatus(effect: Effect): Status {
    match effect case Allow => Approved case Deny => Denied case RequireApproval => Pending
  }

  function PolicyEvent(effect: Effect): Event {
    match effect case Allow => PolicyAllowed case Deny => PolicyDenied case RequireApproval => ApprovalRequested
  }

  function Deadline(ttl: Option<nat>, now: nat): Option<nat> {
    if ttl.Some? then Some(now + ttl.value) else None
  }

  function NewRow(request: Request, decision: PolicyDecision, now: nat): Action {
    Action(request.actionId, request.organization, request.requester, request.namespace, request.tool,
           request.arguments, request.key, RequestDigest(request), request.policyVersion, decision.rule,
           decision.effect, EarlierStatus(decision.effect), request.createdAt, now,
           Deadline(decision.approvalTtl, now), decision.approvalTtl, None, None, None,
           if decision.effect == Allow then POLICY else None, None)
  }

  function Submit(t: Tables, request: Request, decision: PolicyDecision, now: nat): Tx<Action> {
    if !ValidRequest(request) || !ValidPolicyDecision(decision) || decision.policyVersion != request.policyVersion then
      Tx(t, Raised(InvalidValue))
    else
      var found := FindByKey(t, RequestKey(request));
      if found.Some? then
        var t1 := RefreshState(t, found.value, now);
        if t1.actions[found.value].digest != RequestDigest(request) then Tx(t, Raised(BindingMismatch))
        else Tx(t1, Returned(t1.actions[found.value]))
      else if request.actionId in t.actions then
        Tx(t, Raised(IntegrityViolation))
      else
        var row := NewRow(request, decision, now);
        Tx(Record(t, request.actionId, row, PolicyEvent(decision.effect), now, POLICY, Some(Raw(PolicyDetail(decision)))), Returned(row))
  }

  function PolicyDetail(decision: PolicyDecision): string {
    "rule=" + decision.rule + ";policy=" + decision.policyVersion
  }

  function TextOf(text: Option<string>): Option<Text> {
    if text.Some? then Some(Raw(text.value)) else None
  }

  function Decided(t: Tables, id: string, decision: Decision, actor: string, reason: Option<string>, now: nat): Tx<Action>
    requires id in t.actions
  {
    var row := t.actions[id];
    var target := if decision.Approve? then Approved else Rejected;
    if row.status == target then Tx(t, Returned(row))
    else if row.status == Expired then Tx(t, Raised(ApprovalExpired(row)))
    else if row.status != Pending then Tx(t, Raised(InvalidState(row.status)))
    else
      var row1 := row.(status := target, updatedAt := now, decidedBy := Some(actor), decisionReason := reason);
      Tx(Record(t, id, row1, if decision.Approve? then ApprovalGranted else Event.ApprovalRejected, now, Some(actor), TextOf(reason)),
         Returned(row1))
  }

  /** Rolls a raising transaction back to the tables it began with. */
  function Committed<T>(before: Tables, tx: Tx<T>): Tx<T> {
    if tx.reply.Raised? then Tx(before, tx.reply) else tx
  }

  function Decide(t: Tables, id: string, decision: Decision, actor: string, reason: Option<string>,
                  now: nat): Tx<Action> {
    if Blank(actor) then Tx(t, Raised(InvalidValue))
    else if id !in t.actions then Tx(t, Raised(UnknownId(id)))
    else Committed(t, Decided(RefreshState(t, id, now), id, decision, actor, reason, now))
  }

  /** Why a reviewer may not decide a row, checked in this order. */
  function Refusal(row: Action, decision: Decision, auth: Authorization): Option<Error> {
    if row.organization != auth.organization then Some(Unauthorized("organization_mismatch"))
    else if row.namespace !in auth.namespaces then Some(Unauthorized("namespace_forbidden"))
    else if decision !in auth.decisions then Some(Unauthorized("decision_forbidden"))
    else if auth.separateApprover && row.requester.Some?
            && row.requester.value == (if auth.subject.Some? && auth.subject.value != "" then auth.subject.value else auth.actor)
    then Some(Unauthorized("separation_of_duties"))
    else None
  }

  function DecideAuthorized(t: Tables, id: string, decision: Decision, auth: Authorization, reason: Option<string>,
                            now: nat): Tx<Action> {
    if id !in t.actions then Tx(t, Raised(UnknownId(id)))
    else
      var t1 := RefreshState(t, id, now);
      var refusal := Refusal(t1.actions[id], decision, auth);
      if refusal.Some? then Tx(t, Raised(refusal.value))
      else Committed(t, Decided(t1, id, decision, auth.actor, reason, now))
  }

  // ---------- pauses ----------

  predicate ValidScopeValue(value: Option<string>) {
    value.Some? ==> Label(value.value)
  }

  function ScopeOf(namespace: Option<string>, tool: Option<string>): Scope {
    Scope(if namespace.Some? then namespace.value else ANY, if tool.Some? then tool.value else ANY)
  }

  predicate ValidControl(actor: string, reason: string, namespace: Option<string>, tool: Option<string>) {
    Label(actor) && Label(reason) && ValidScopeValue(namespace) && ValidScopeValue(tool)
  }

  function SetPause(t: Tables, actor: string, reason: string, namespace: Option<string>, tool: Option<string>,
                    now: nat): Tx<Pause> {
    if !ValidControl(actor, reason, namespace, tool) then Tx(t, Raised(InvalidValue))
    else
      var scope := ScopeOf(namespace, tool);
      var pause := Pause(now, actor, reason);
      Tx(t.(pauses := t.pauses[scope := pause],
            controls := AppendControl(t.controls, PauseSet, now, actor, ScopeJson(scope), Raw(reason))),
         Returned(pause))
  }

  function ClearPause(t: Tables, actor: string, reason: string, namespace: Option<string>, tool: Option<string>,
                      now: nat): Tx<bool> {
    if !ValidControl(actor, reason, namespace, tool) then Tx(t, Raised(InvalidValue))
    else
      var scope := ScopeOf(namespace, tool);
      if scope !in t.pauses then Tx(t, Returned(false))
      else
        Tx(t.(pauses := t.pauses - {scope},
              controls := AppendControl(t.controls, PauseCleared, now, actor, ScopeJson(scope), Raw(reason))),
           Returned(true))
  }

  /** The paused scopes covering a row, narrowest first; of two equally narrow ones the later pause wins. */
  function MatchingPause(pauses: map<Scope, Pause>, row: Action): (r: Option<Scope>)
    ensures r.Some? ==> r.value in pauses
  {
    var byNamespace := Scope(row.namespace, ANY);
    var byTool := Scope(ANY, row.tool);
    if Scope(row.namespace, row.tool) in pauses then Some(Scope(row.namespace, row.tool))
    else if byNamespace in pauses && byTool in pauses then
      Some(if pauses[byNamespace].pausedAt >= pauses[byTool].pausedAt then byNamespace else byTool)
    else if byNamespace in pauses then Some(byNamespace)
    else if byTool in pauses then Some(byTool)
    else if Scope(ANY, ANY) in pauses then Some(Scope(ANY, ANY))
    else None
  }

  // ---------- limits ----------

  datatype LimitSpec = LimitSpec(
    window: int, namespace: Option<string>, tool: Option<string>, maxActions: Option<int>,
    valueArgument: Option<string>, maxValue: Option<int>)

  predicate InRange(maximum: Option<int>) {
    maximum.Some? ==> 1 <= maximum.value <= MAX_SQL_INTEGER
  }

  predicate Trimmed(segment: string) {
    segment != "" && !IsSpace(segment[0]) && !IsSpace(segment[|segment| - 1])
  }

  predicate ValidLimit(limitId: string, spec: LimitSpec, actor: string, reason: string) {
    && Label(limitId) && ValidControl(actor, reason, spec.namespace, spec.tool)
    && 1 <= spec.window <= MAX_SQL_INTEGER
    && InRange(spec.maxActions) && InRange(spec.maxValue)
    && spec.valueArgument.Some? == spec.maxValue.Some?
    && (spec.valueArgument.Some? ==>
          Label(spec.valueArgument.value) && forall segment <- Segments(spec.valueArgument.value) :: Trimmed(segment))
    && (spec.maxActions.Some? || spec.maxValue.Some?)
  }

  function Positive(n: Option<int>): (r: Option<nat>)
    requires InRange(n)
    ensures r == n
  {
    if n.Some? then Some(n.value) else None
  }

  function LimitDetail(limitId: string, limit: Limit): Json {
    Obj(map["limit_id" := Str(limitId), "max_actions" := IntOrNull(limit.maxActions), "max_value" := IntOrNull(limit.maxValue),
            "reason" := Str(limit.reason), "value_argument" := TextOrNull(limit.valueArgument), "window_ns" := Int(limit.window)])
  }

  function ConfigureLimit(t: Tables, limitId: string, spec: LimitSpec, actor: string, reason: string,
                          now: nat): Tx<Limit> {
    if !ValidLimit(limitId, spec, actor, reason) then Tx(t, Raised(InvalidValue))
    else
      var limit: Limit := LimitRow(ScopeOf(spec.namespace, spec.tool), spec.window, Positive(spec.maxActions),
                                   spec.valueArgument, Positive(spec.maxValue), true, now, actor, reason);
      if limitId in t.limits && !SameShape(t.limits[limitId], limit) then Tx(t, Raised(InvalidValue))
      else
        Tx(t.(limits := t.limits[limitId := limit],
              controls := AppendControl(t.controls, LimitConfigured, now, actor, ScopeJson(limit.scope), Encoded(LimitDetail(limitId, limit)))),
           Returned(limit))
  }

  /** Scope, window and value path of a limit are immutable. */
  predicate SameShape(a: Limit, b: Limit) {
    a.scope == b.scope && a.window == b.window && a.valueArgument == b.valueArgument
  }

  function DisableLimit(t: Tables, limitId: string, actor: string, reason: string, now: nat): Tx<Limit> {
    if !Label(limitId) || !Label(actor) || !Label(reason) then Tx(t, Raised(InvalidValue))
    else if limitId !in t.limits then Tx(t, Raised(UnknownId(limitId)))
    else
      var limit := t.limits[limitId];
      if !limit.enabled then Tx(t, Returned(limit))
      else
        var disabled: Limit := limit.(enabled := false, updatedAt := now, updatedBy := actor, reason := reason);
        Tx(t.(limits := t.limits[limitId := disabled],
              controls := AppendControl(t.controls, LimitDisabled, now, actor, ScopeJson(limit.scope),
                                        Encoded(Obj(map["limit_id" := Str(limitId), "reason" := Str(reason)])))),
           Returned(disabled))
  }

  function WindowStart(now: nat, window: nat): nat
    requires window > 0
  {
    now - now % window
  }

  /** Enabled limits covering a row, in the order of their ids. */
  function MatchingLimits(limits: map<string, Limit>, row: Action): (ids: seq<string>)
    ensures forall i | 0 <= i < |ids| :: ids[i] in limits
  {
    var keys := TableOrder.Sorted(MatchingKeys(limits, row));
    assert forall key | key in keys :: key in MatchingKeys(limits, row);
    TableOrder.Ids(keys)
  }

  function MatchingKeys(limits: map<string, Limit>, row: Action): set<TableOrder.Key> {
    set id | id in limits && limits[id].enabled && Covers(limits[id].scope, row) :: TableOrder.Key(0, id)
  }

  function UsedIn(usage: map<Bucket, Usage>, bucket: Bucket): Usage {
    if bucket in usage then usage[bucket] else Usage(0, 0)
  }

  /** The value a row spends under a limit; zero when the limit prices nothing. */
  function Requested(row: Action, limit: Limit): Option<nat> {
    if limit.valueArgument.None? then Some(0) else IntegerAt(row.arguments, Segments(limit.valueArgument.value))
  }

  /** One limit's answer to a row: the reservation to make, or why the row is blocked. */
  function Admit(usage: map<Bucket, Usage>, limitId: string, limit: Limit, id: string, row: Action,
                 now: nat): (r: Outcome<Reservation, Error>)
    ensures r.Raised? ==> r.error.LimitExceeded? || r.error.LimitValueInvalid?
  {
    var bucket := Bucket(limitId, WindowStart(now, limit.window));
    var requested := Requested(row, limit);
    var used := UsedIn(usage, bucket);
    if requested.None? then Raised(LimitValueInvalid(row, limitId, limit.valueArgument.value))
    else if limit.maxActions.Some? && used.actions + 1 > limit.maxActions.value then
      Raised(LimitExceeded(row, limitId, "actions", used.actions, 1, limit.maxActions.value))
    else if limit.maxValue.Some? && used.value + requested.value > limit.maxValue.value then
      Raised(LimitExceeded(row, limitId, limit.valueArgument.value, used.value, requested.value, limit.maxValue.value))
    else Returned(Reservation(id, bucket, 1, requested.value, None))
  }

  /** The first refusal in limit order, or a reservation for every limit. */
  function Plan(t: Tables, ids: seq<string>, id: string, row: Action, now: nat): (r: Outcome<seq<Reservation>, Error>)
    requires forall i | 0 <= i < |ids| :: ids[i] in t.limits
    ensures r.Raised? ==> r.error.LimitExceeded? || r.error.LimitValueInvalid?
  {
    if ids == [] then Returned([])
    else
      var earlier := Plan(t, ids[..|ids| - 1], id, row, now);
      var limitId := ids[|ids| - 1];
      if earlier.Raised? then earlier
      else
        var last := Admit(t.usage, limitId, t.limits[limitId], id, row, now);
        if last.Raised? then Raised(last.error) else Returned(earlier.value + [last.value])
  }

  datatype Books = Books(usage: map<Bucket, Usage>, reservations: seq<Reservation>)

  function Book(books: Books, r: Reservation): Books {
    var used := UsedIn(books.usage, r.bucket);
    Books(books.usage[r.bucket := Usage(used.actions + r.actions, used.value + r.value)], books.reservations + [r])
  }

  function BookAll(books: Books, plan: seq<Reservation>): Books {
    if plan == [] then books else Book(BookAll(books, plan[..|plan| - 1]), plan[|plan| - 1])
  }

  predicate Held(r: Reservation, id: string) {
    r.actionId == id && r.releasedAt.None?
  }

  function ReleaseOne(books: Books, i: nat, now: nat): Books
    requires i < |books.reservations|
  {
    var r := books.reservations[i];
    Books(if r.bucket in books.usage
          then books.usage[r.bucket := Usage(books.usage[r.bucket].actions - r.actions, books.usage[r.bucket].value - r.value)]
          else books.usage,
          books.reservations[i := r.(releasedAt := Some(now))])
  }

  /** Releases what an action holds among the first `n` reservations. */
  function Release(books: Books, id: string, now: nat, n: nat): (r: Books)
    requires n <= |books.reservations|
    ensures |r.reservations| == |books.reservations|
  {
    if n == 0 then books
    else
      var before := Release(books, id, now, n - 1);
      if Held(before.reservations[n - 1], id) then ReleaseOne(before, n - 1, now) else before
  }

  function WithBooks(t: Tables, books: Books): Tables {
    t.(usage := books.usage, reservations := books.reservations)
  }

  // ---------- execution ----------

  function BlockDetail(error: Error): Json
    requires error.LimitExceeded? || error.LimitValueInvalid?
  {
    if error.LimitExceeded? then
      Obj(map["limit_id" := Str(error.limitId), "maximum" := Int(error.maximum), "requested" := Int(error.requested),
              "resource" := Str(error.resource), "used" := Int(error.used)])
    else
      Obj(map["limit_id" := Str(error.limitId), "resource" := Str(error.valueArgument),
              "error" := Str("invalid_or_missing_non_negative_integer")])
  }

  function PauseDetail(scope: Scope, reason: string): Json {
    Obj(map["reason" := Str(reason), "scope" := ScopeJson(scope)])
  }

  /** Why a row that is not approved cannot be claimed. */
  function ClaimRefusal(row: Action): Error
    requires row.status != Approved && row.status != Succeeded
  {
    match row.status
    case Pending => NeedsApproval(row)
    case Denied => DeniedByPolicy(row)
    case Rejected => RejectedByReviewer(row)
    case Expired => ApprovalExpired(row)
    case Executing => InProgress(row)
    case Unknown => OutcomeUnknown(row)
  }

  /** Claims an approved row. The receipts of a block are kept although the claim raises. */
  function ClaimApproved(t: Tables, lease: nat, id: string, now: nat): Tx<Grant>
    requires id in t.actions
  {
    var row := t.actions[id];
    var pause := MatchingPause(t.pauses, row);
    if pause.Some? then
      var reason := t.pauses[pause.value].reason;
      Tx(Note(t, id, row, PauseBlocked, now, Some(Encoded(PauseDetail(pause.value, reason)))),
         Raised(PauseActive(row, pause.value, reason)))
    else
      var plan := Plan(t, MatchingLimits(t.limits, row), id, row, now);
      if plan.Raised? then
        Tx(Note(t, id, row, LimitBlocked, now, Some(Encoded(BlockDetail(plan.error)))), Raised(plan.error))
      else
        var row1 := row.(status := Executing, updatedAt := now, leaseExpiresAt := Some(now + lease));
        Tx(Record(WithBooks(t, BookAll(Books(t.usage, t.reservations), plan.value)), id, row1, ExecutionStarted, now, RUNTIME, None),
           Returned(Execute(row1)))
  }

  function Claim(t: Tables, lease: nat, id: string, digest: Digest, now: nat): Tx<Grant> {
    if id !in t.actions then Tx(t, Raised(UnknownId(id)))
    else
      var t1 := RefreshState(t, id, now);
      var row := t1.actions[id];
      if row.digest != digest then Tx(t, Raised(BindingMismatch))
      else if row.status == Succeeded then
        Tx(Note(t1, id, row, ResultReplayed, now, None),
           Returned(Replay(row, if row.result.Some? then row.result.value else Null)))
      else if row.status == Approved then ClaimApproved(t1, lease, id, now)
      else Tx(t, Raised(ClaimRefusal(row)))
  }

  function Complete(t: Tables, id: string, digest: Digest, result: PyValue, now: nat): Tx<Action> {
    if result.Opaque? then Tx(t, Raised(InvalidValue))
    else if id !in t.actions then Tx(t, Raised(UnknownId(id)))
    else
      var row := t.actions[id];
      if row.digest != digest then Tx(t, Raised(BindingMismatch))
      else if row.status != Executing then Tx(t, Raised(InvalidState(row.status)))
      else
        var row1 := row.(status := Succeeded, updatedAt := now, result := Some(result.json), error := None,
                         leaseExpiresAt := None);
        Tx(Record(t, id, row1, ExecutionSucceeded, now, RUNTIME, None), Returned(row1))
  }

  function MarkUnknown(t: Tables, id: string, digest: Digest, error: string, now: nat): Tx<Action> {
    if Blank(error) then Tx(t, Raised(InvalidValue))
    else if id !in t.actions then Tx(t, Raised(UnknownId(id)))
    else
      var row := t.actions[id];
      if row.digest != digest then Tx(t, Raised(BindingMismatch))
      else if row.status != Executing then Tx(t, Raised(InvalidState(row.status)))
      else
        var row1 := row.(status := Unknown, updatedAt := now, error := Some(error), leaseExpiresAt := None);
        Tx(Record(t, id, row1, ExecutionUnknown, now, RUNTIME, Some(Raw(error))), Returned(row1))
  }

  /** The row an outcome leaves behind; a policy-denied row never has an unknown outcome. */
  function ReconciledRow(row: Action, outcome: Reconciliation, result: Option<Json>, now: nat): Option<Action> {
    var base := row.(updatedAt := now, leaseExpiresAt := None, result := result, error := None);
    if outcome.Committed? then Some(base.(status := Succeeded, expiresAt := None))
    else match row.effect
      case RequireApproval =>
        Some(base.(status := Pending, expiresAt := Deadline(row.approvalTtl, now), decidedBy := None, decisionReason := None))
      case Allow =>
        Some(base.(status := Approved, expiresAt := None, decidedBy := POLICY, decisionReason := None))
      case Deny => None
  }

  function Reconcile(t: Tables, id: string, outcome: Reconciliation, actor: string, reason: string, result: PyValue,
                     now: nat): Tx<Action> {
    if Blank(actor) || Blank(reason) || (outcome.NotCommitted? && result != Loaded(Null)) || result.Opaque? then
      Tx(t, Raised(InvalidValue))
    else if id !in t.actions then Tx(t, Raised(UnknownId(id)))
    else
      var t1 := RefreshState(t, id, now);
      var row := t1.actions[id];
      if row.status != Unknown then Tx(t, Raised(InvalidState(row.status)))
      else
        var row1 := ReconciledRow(row, outcome, if outcome.Committed? then Some(result.json) else None, now);
        if row1.None? then Tx(t, Raised(InvalidState(row.status)))
        else
          var books := Books(t1.usage, t1.reservations);
          var t2 := if outcome.Committed? then t1 else WithBooks(t1, Release(books, id, now, |t1.reservations|));
          Tx(Record(t2, id, row1.value, if outcome.Committed? then ReconciledCommitted else ReconciledNotCommitted, now,
                    Some(actor), Some(Raw(reason))),
             Returned(row1.value))
  }

  // ---------- reads that persist lapsed states ----------

  function GetAction(t: Tables, id: string, now: nat): Tx<Action> {
    if id !in t.actions then Tx(t, Raised(UnknownId(id)))
    else
      var t1 := RefreshState(t, id, now);
      Tx(t1, Returned(t1.actions[id]))
  }

  /** Row ids by creation time, then by id. */
  function CreationOrder(actions: map<string, Action>): (ids: seq<string>)
    ensures forall i | 0 <= i < |ids| :: ids[i] in actions
  {
    var keys := TableOrder.Sorted(CreationKeys(actions));
    assert forall key | key in keys :: key in CreationKeys(actions);
    TableOrder.Ids(keys)
  }

  function CreationKeys(actions: map<string, Action>): set<TableOrder.Key> {
    set id | id in actions :: TableOrder.Key(actions[id].createdAt, id)
  }

  function RefreshAll(t: Tables, ids: seq<string>, now: nat): (r: Tables)
    requires forall i | 0 <= i < |ids| :: ids[i] in t.actions
    ensures forall id | id in t.actions :: id in r.actions
  {
    if ids == [] then t
    else RefreshState(RefreshAll(t, ids[..|ids| - 1], now), ids[|ids| - 1], now)
  }

  function WithStatus(t: Tables, ids: seq<string>, status: Option<Status>): seq<Action>
    requires forall i | 0 <= i < |ids| :: ids[i] in t.actions
  {
    if ids == [] then []
    else
      var last := t.actions[ids[|ids| - 1]];
      WithStatus(t, ids[..|ids| - 1], status) + (if status.None? || last.status == status.value then [last] else [])
  }

  function ListActions(t: Tables, status: Option<Status>, now: nat): Tx<seq<Action>> {
    var ids := CreationOrder(t.actions);
    var t1 := RefreshAll(t, ids, now);
    Tx(t1, Returned(WithStatus(t1, ids, status)))
  }
}
