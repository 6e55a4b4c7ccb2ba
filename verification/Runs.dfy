/** Runs of the store: any transactions, by anyone, in any order, with any clock readings. */
module Runs {
  import opened Basics
  import opened JsonValues
  import opened RuntimeModels
  import T = Transactions

  datatype Op =
    | Submit(request: Request, policy: PolicyDecision, now: nat)
    | Decide(id: string, decision: Decision, actor: string, note: Option<string>, now: nat)
    | DecideAuthorized(id: string, decision: Decision, auth: Authorization, note: Option<string>, now: nat)
    | SetPause(actor: string, reason: string, namespace: Option<string>, tool: Option<string>, now: nat)
    | ClearPause(actor: string, reason: string, namespace: Option<string>, tool: Option<string>, now: nat)
    | ConfigureLimit(limitId: string, spec: T.LimitSpec, actor: string, reason: string, now: nat)
    | DisableLimit(limitId: string, actor: string, reason: string, now: nat)
    | Claim(id: string, digest: Digest, now: nat)
    | Complete(id: string, digest: Digest, result: PyValue, now: nat)
    | MarkUnknown(id: string, digest: Digest, error: string, now: nat)
    | Reconcile(id: string, outcome: Reconciliation, actor: string, reason: string, result: PyValue, now: nat)
    | GetAction(id: string, now: nat)
    | ListActions(status: Option<Status>, now: nat)

  function Apply(t: Tables, lease: nat, op: Op): Tables {
    match op
    case Submit(request, policy, now) => T.Submit(t, request, policy, now).tables
    case Decide(id, decision, actor, note, now) => T.Decide(t, id, decision, actor, note, now).tables
    case DecideAuthorized(id, decision, auth, note, now) => T.DecideAuthorized(t, id, decision, auth, note, now).tables
    case SetPause(actor, reason, namespace, tool, now) => T.SetPause(t, actor, reason, namespace, tool, now).tables
    case ClearPause(actor, reason, namespace, tool, now) => T.ClearPause(t, actor, reason, namespace, tool, now).tables
    case ConfigureLimit(limitId, spec, actor, reason, now) => T.ConfigureLimit(t, limitId, spec, actor, reason, now).tables
    case DisableLimit(limitId, actor, reason, now) => T.DisableLimit(t, limitId, actor, reason, now).tables
    case Claim(id, digest, now) => T.Claim(t, lease, id, digest, now).tables
    case Complete(id, digest, result, now) => T.Complete(t, id, digest, result, now).tables
    case MarkUnknown(id, digest, error, now) => T.MarkUnknown(t, id, digest, error, now).tables
    case Reconcile(id, outcome, actor, reason, result, now) => T.Reconcile(t, id, outcome, actor, reason, result, now).tables
    case GetAction(id, now) => T.GetAction(t, id, now).tables
    case ListActions(status, now) => T.ListActions(t, status, now).tables
  }

  /** The tables after a run from an empty database. */
  function Run(lease: nat, ops: seq<Op>): Tables {
    if ops == [] then EMPTY_TABLES else Apply(Run(lease, ops[..|ops| - 1]), lease, ops[|ops| - 1])
  }
}
