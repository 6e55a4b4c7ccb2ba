/** Values of the runtime: requests, stored rows, receipts and errors. */
module RuntimeModels {
  import opened Basics
  import opened JsonValues

  datatype Effect = Allow | Deny | RequireApproval

  datatype Status = Pending | Approved | Rejected | Denied | Executing | Succeeded | Unknown | Expired

  datatype Event =
    | PolicyAllowed | PolicyDenied | ApprovalRequested
    | ApprovalGranted | ApprovalRejected | ApprovalLapsed
    | ExecutionStarted | ExecutionSucceeded | ExecutionUnknown | ExecutionAbandoned
    | ReconciledCommitted | ReconciledNotCommitted
    | ResultReplayed | PauseBlocked | LimitBlocked

  datatype Decision = Approve | Reject

  datatype Reconciliation = Committed | NotCommitted

  /** SHA-256 of the canonical identity, as the injective term it encodes. */
  datatype Digest = Digest(
    namespace: string, tool: string, arguments: Json, key: string, policyVersion: string, owner: Option<Owner>)

  datatype Owner = Owner(organization: string, requester: Option<string>)

  datatype Request = Request(
    actionId: string, namespace: string, tool: string, arguments: Json, key: string,
    policyVersion: string, createdAt: nat, organization: string, requester: Option<string>)

  const DEFAULT_ORGANIZATION := "default"

  /** What the constructor of a request accepts. */
  predicate ValidRequest(r: Request) {
    && !Blank(r.actionId) && !Blank(r.namespace) && !Blank(r.tool) && !Blank(r.key)
    && !Blank(r.policyVersion) && Label(r.organization) && |r.organization| <= 128
    && (r.requester.Some? ==> Label(r.requester.value) && |r.requester.value| <= 128)
    && r.arguments.Obj?
  }

  /** Stores older than organizations hold digests without an owner. */
  function RequestDigest(r: Request): Digest {
    Digest(r.namespace, r.tool, r.arguments, r.key, r.policyVersion,
           if r.organization != DEFAULT_ORGANIZATION || r.requester.Some?
           then Some(Owner(r.organization, r.requester)) else None)
  }

  datatype PolicyDecision = PolicyDecision(effect: Effect, rule: string, policyVersion: string, approvalTtl: Option<nat>)

  /** What the constructor of a policy decision accepts. */
  predicate ValidPolicyDecision(p: PolicyDecision) {
    && !Blank(p.rule) && !Blank(p.policyVersion)
    && (p.approvalTtl.Some? ==> p.approvalTtl.value >= 1 && p.effect == RequireApproval)
  }

  /** One row of `runtime_actions`. */
  datatype Action = Action(
    actionId: string, organization: string, requester: Option<string>, namespace: string, tool: string,
    arguments: Json, key: string, digest: Digest, policyVersion: string, rule: string, effect: Effect,
    status: Status, createdAt: nat, updatedAt: nat, expiresAt: Option<nat>, approvalTtl: Option<nat>,
    leaseExpiresAt: Option<nat>, result: Option<Json>, error: Option<string>,
    decidedBy: Option<string>, decisionReason: Option<string>)

  /** The request a row was created for. */
  function RequestOf(row: Action): Request {
    Request(row.actionId, row.namespace, row.tool, row.arguments, row.key, row.policyVersion,
                  row.createdAt, row.organization, row.requester)
  }

  /** SHA-256 of one receipt and its predecessor, as the injective term it encodes. */
  datatype Hash = Hash(
    actionId: string, event: Event, timestamp: nat, digest: Digest, actor: Option<string>,
    detail: Option<Text>, previous: Option<Hash>)

  datatype Receipt = Receipt(
    sequence: nat, actionId: string, event: Event, timestamp: nat, digest: Digest,
    actor: Option<string>, detail: Option<Text>, previousHash: Option<Hash>, receiptHash: Hash)

  datatype ControlEvent = PauseSet | PauseCleared | LimitConfigured | LimitDisabled

  datatype ControlHash = ControlHash(
    event: ControlEvent, timestamp: nat, actor: string, scope: Json, detail: Text, previous: Option<ControlHash>)

  datatype ControlReceipt = ControlReceipt(
    sequence: nat, event: ControlEvent, timestamp: nat, actor: string, scope: Json, detail: Text,
    previousHash: Option<ControlHash>, receiptHash: ControlHash)

  const MAX_SQL_INTEGER: nat := 9_223_372_036_854_775_807

  /** A control scope; an empty component covers everything. */
  datatype Scope = Scope(namespace: string, tool: string)

  const ANY := ""

  predicate Covers(scope: Scope, row: Action) {
    (scope.namespace == ANY || scope.namespace == row.namespace) && (scope.tool == ANY || scope.tool == row.tool)
  }

  function Specificity(scope: Scope): nat {
    (if scope.namespace != ANY then 1 else 0) + (if scope.tool != ANY then 1 else 0)
  }

  /** The canonical JSON object of a scope. */
  function ScopeJson(scope: Scope): Json {
    Obj(map["namespace" := if scope.namespace == ANY then Null else Str(scope.namespace),
            "tool_name" := if scope.tool == ANY then Null else Str(scope.tool)])
  }

  datatype Pause = Pause(pausedAt: nat, pausedBy: string, reason: string)

  datatype LimitRow = LimitRow(
    scope: Scope, window: nat, maxActions: Option<nat>, valueArgument: Option<string>, maxValue: Option<nat>,
    enabled: bool, updatedAt: nat, updatedBy: string, reason: string)

  /** A limit row together with the table's CHECK constraints. */
  type Limit = l: LimitRow |
    && l.window > 0
    && (l.maxActions.Some? ==> l.maxActions.value > 0)
    && (l.maxValue.Some? ==> l.maxValue.value > 0)
    && l.valueArgument.Some? == l.maxValue.Some?
    && (l.maxActions.Some? || l.maxValue.Some?)
    witness LimitRow(Scope("", ""), 1, Some(1), None, None, true, 0, "", "")

  datatype Usage = Usage(actions: int, value: int)

  /** A limit's fixed window, named by its start. */
  datatype Bucket = Bucket(limitId: string, start: nat)

  datatype Reservation = Reservation(actionId: string, bucket: Bucket, actions: nat, value: nat, releasedAt: Option<nat>)

  datatype Error =
    | InvalidValue
    | UnknownId(id: string)
    | IntegrityViolation
    | BindingMismatch
    | InvalidState(status: Status)
    | Unauthorized(code: string)
    | NeedsApproval(action: Action)
    | DeniedByPolicy(action: Action)
    | RejectedByReviewer(action: Action)
    | ApprovalExpired(action: Action)
    | InProgress(action: Action)
    | OutcomeUnknown(action: Action)
    | PauseActive(action: Action, scope: Scope, reason: string)
    | LimitExceeded(action: Action, limitId: string, resource: string, used: int, requested: int, maximum: int)
    | LimitValueInvalid(action: Action, limitId: string, valueArgument: string)

  /** Reviewer constraints enforced inside the decision transaction. */
  datatype Authorization = Authorization(
    actor: string, organization: string, namespaces: set<string>, decisions: set<Decision>,
    separateApprover: bool, subject: Option<string>)

  /** What a claim grants: the right to run the tool, or the stored result of an earlier run. */
  datatype Grant = Execute(action: Action) | Replay(action: Action, result: Json)

  /** The columns of the UNIQUE constraint on `runtime_actions`. */
  datatype ActionKey = ActionKey(namespace: string, tool: string, key: string)

  function RowKey(row: Action): ActionKey {
    ActionKey(row.namespace, row.tool, row.key)
  }

  function RequestKey(r: Request): ActionKey {
    ActionKey(r.namespace, r.tool, r.key)
  }

  /** The runtime tables and the unique index of `runtime_actions`; sequences are in row order. */
  datatype Tables = Tables(
    actions: map<string, Action>,
    index: map<ActionKey, string>,
    receipts: seq<Receipt>,
    pauses: map<Scope, Pause>,
    limits: map<string, Limit>,
    usage: map<Bucket, Usage>,
    reservations: seq<Reservation>,
    controls: seq<ControlReceipt>)

  const EMPTY_TABLES := Tables(map[], map[], [], map[], map[], map[], [], [])
}
