/** What a legal receipt log of one action can look like. */
module LifeWords {
  import opened Basics
  import opened RuntimeModels
  import opened Transactions
  import opened Lifecycle
  import opened Limits

  lemma {:induction false} PrefixesAreLegal(ttl: Option<nat>, own: seq<Receipt>, n: nat)
    requires n <= |own| && !Fold(ttl, own).Illegal?
    ensures !Fold(ttl, own[..n]).Illegal?
    ensures n > 0 ==> Fold(ttl, own[..n]).Live?
    ensures n > 0 && Fold(ttl, own).Live? ==>
              Fold(ttl, own[..n]).effect == Fold(ttl, own).effect && Fold(ttl, own[..n]).digest == Fold(ttl, own).digest
  {
    if n < |own| {
      assert own[..|own| - 1][..n] == own[..n];
      PrefixesAreLegal(ttl, own[..|own| - 1], n);
    } else {
      assert own[..n] == own;
    }
  }

  // ---------- approvals are consumed ----------

  predicate Milestone(event: Event) {
    event in {ApprovalGranted, ExecutionStarted, ReconciledNotCommitted}
  }

  function Milestones(own: seq<Receipt>): seq<Event> {
    if own == [] then []
    else
      var earlier := Milestones(own[..|own| - 1]);
      var last := own[|own| - 1].event;
      if Milestone(last) then earlier + [last] else earlier
  }

  /** The order in which an action may pass its milestones, over and over. */
  function Cycle(effect: Effect): (cycle: seq<Event>)
    ensures |cycle| > 0
  {
    if effect == RequireApproval then [ApprovalGranted, ExecutionStarted, ReconciledNotCommitted]
    else [ExecutionStarted, ReconciledNotCommitted]
  }

  predicate FollowsCycle(word: seq<Event>, cycle: seq<Event>)
    requires |cycle| > 0
  {
    forall i | 0 <= i < |word| :: word[i] == cycle[i % |cycle|]
  }

  /** Where in its cycle an action in a given status is. */
  predicate AtPhase(effect: Effect, status: Status, milestones: nat) {
    match effect
    case Deny => milestones == 0
    case Allow => milestones % 2 == if Spent(status) then 1 else 0
    case RequireApproval =>
      if Spent(status) then milestones % 3 == 2
      else if status == Approved then milestones % 3 == 1
      else if status == Expired then milestones % 3 <= 1
      else milestones % 3 == 0
  }

  /** Statuses an effect can lead to. */
  predicate Possible(effect: Effect, status: Status) {
    match effect
    case Deny => status == Denied
    case Allow => status == Approved || Spent(status)
    case RequireApproval => status != Denied
  }

  lemma {:induction false} MilestonesFollowCycle(ttl: Option<nat>, own: seq<Receipt>)
    requires Fold(ttl, own).Live?
    ensures var life := Fold(ttl, own);
            && Possible(life.effect, life.status)
            && FollowsCycle(Milestones(own), Cycle(life.effect))
            && AtPhase(life.effect, life.status, |Milestones(own)|)
  {
    var n := |own| - 1;
    PrefixesAreLegal(ttl, own, n);
    if n > 0 {
      MilestonesFollowCycle(ttl, own[..n]);
      NextMilestone(ttl, Fold(ttl, own[..n]), own[n], Milestones(own[..n]));
    } else {
      assert Milestones(own[..n]) == [];
    }
  }

  lemma NextMilestone(ttl: Option<nat>, life: Life, r: Receipt, word: seq<Event>)
    requires life.Live? && Step(ttl, life, r).Live?
    requires Possible(life.effect, life.status) && AtPhase(life.effect, life.status, |word|)
    requires FollowsCycle(word, Cycle(life.effect))
    ensures var next := Step(ttl, life, r);
            var longer := if Milestone(r.event) then word + [r.event] else word;
            Possible(next.effect, next.status) && AtPhase(next.effect, next.status, |longer|) && FollowsCycle(longer, Cycle(next.effect))
  {
    NextPhase(ttl, life, r, |word|);
    hide FollowsCycle, AtPhase, Possible, Step, Milestone;
    if Milestone(r.event) {
      NextOfCycle(ttl, life, r, |word|);
      OneMoreFollows(word, r.event, Cycle(life.effect));
    }
  }

  lemma NextPhase(ttl: Option<nat>, life: Life, r: Receipt, n: nat)
    requires life.Live? && Step(ttl, life, r).Live?
    requires Possible(life.effect, life.status) && AtPhase(life.effect, life.status, n)
    ensures var next := Step(ttl, life, r);
            && next.effect == life.effect && Possible(next.effect, next.status)
            && AtPhase(next.effect, next.status, if Milestone(r.event) then n + 1 else n)
  {
  }

  lemma NextOfCycle(ttl: Option<nat>, life: Life, r: Receipt, n: nat)
    requires life.Live? && Step(ttl, life, r).Live? && Milestone(r.event)
    requires Possible(life.effect, life.status) && AtPhase(life.effect, life.status, n)
    ensures r.event == Cycle(life.effect)[n % |Cycle(life.effect)|]
  {
  }

  lemma OneMoreFollows(word: seq<Event>, event: Event, cycle: seq<Event>)
    requires |cycle| > 0 && FollowsCycle(word, cycle) && event == cycle[|word| % |cycle|]
    ensures FollowsCycle(word + [event], cycle)
  {
  }

  function CountOf(own: seq<Receipt>, event: Event): nat {
    if own == [] then 0 else CountOf(own[..|own| - 1], event) + if own[|own| - 1].event == event then 1 else 0
  }

  /** Every start but the last was proven not to have run. */
  lemma {:induction false} StartsAreCovered(ttl: Option<nat>, own: seq<Receipt>)
    requires Fold(ttl, own).Live?
    ensures CountOf(own, ExecutionStarted)
         == CountOf(own, ReconciledNotCommitted) + if Spent(Fold(ttl, own).status) then 1 else 0
  {
    var n := |own| - 1;
    PrefixesAreLegal(ttl, own, n);
    if n > 0 {
      StartsAreCovered(ttl, own[..n]);
    } else {
      assert CountOf(own[..n], ExecutionStarted) == CountOf(own[..n], ReconciledNotCommitted) == 0;
    }
  }

  // ---------- approvals are used in time ----------

  predicate AsksApproval(event: Event) {
    event in {ApprovalRequested, ReconciledNotCommitted}
  }

  /** Position of the latest receipt that put the action up for approval; -1 if there is none. */
  function LatestRequest(own: seq<Receipt>): (k: int)
    ensures -1 <= k < |own|
    ensures k >= 0 ==> AsksApproval(own[k].event)
    ensures forall i | k < i < |own| :: !AsksApproval(own[i].event)
  {
    if own == [] then -1
    else if AsksApproval(own[|own| - 1].event) then |own| - 1
    else LatestRequest(own[..|own| - 1])
  }

  lemma {:induction false} RenewedByLatestRequest(ttl: Option<nat>, own: seq<Receipt>)
    requires Fold(ttl, own).Live? && Fold(ttl, own).effect == RequireApproval
    ensures LatestRequest(own) >= 0 && own[LatestRequest(own)].timestamp == Fold(ttl, own).renewed
  {
    var n := |own| - 1;
    PrefixesAreLegal(ttl, own, n);
    if n > 0 && !AsksApproval(own[n].event) {
      RenewedByLatestRequest(ttl, own[..n]);
    }
  }

  /** A gated action with a deadline starts strictly before the deadline of its latest request. */
  lemma StartsInTime(ttl: Option<nat>, own: seq<Receipt>, k: nat)
    requires Fold(ttl, own).Live? && Fold(ttl, own).effect == RequireApproval && ttl.Some?
    requires k < |own| && own[k].event == ExecutionStarted
    ensures LatestRequest(own[..k]) >= 0
    ensures own[k].timestamp < own[LatestRequest(own[..k])].timestamp + ttl.value
  {
    PrefixesAreLegal(ttl, own, k + 1);
    assert own[..k + 1][..k] == own[..k];
    PrefixesAreLegal(ttl, own, k);
    RenewedByLatestRequest(ttl, own[..k]);
  }

  // ---------- the status a webhook reports ----------

  /** The label a webhook body gives a receipt; blocks have none. */
  function EventStatus(event: Event): Option<string> {
    match event
    case PolicyAllowed => Some("approved")
    case PolicyDenied => Some("denied")
    case ApprovalRequested => Some("pending")
    case ApprovalGranted => Some("approved")
    case ApprovalRejected => Some("rejected")
    case ApprovalLapsed => Some("expired")
    case ExecutionStarted => Some("executing")
    case ExecutionSucceeded => Some("succeeded")
    case ExecutionUnknown => Some("unknown")
    case ExecutionAbandoned => Some("unknown")
    case ReconciledCommitted => Some("succeeded")
    case ReconciledNotCommitted => Some("pending_or_approved")
    case ResultReplayed => Some("succeeded")
    case PauseBlocked => None
    case LimitBlocked => None
  }

  function StatusText(status: Status): string {
    match status
    case Pending => "pending"
    case Approved => "approved"
    case Rejected => "rejected"
    case Denied => "denied"
    case Executing => "executing"
    case Succeeded => "succeeded"
    case Unknown => "unknown"
    case Expired => "expired"
  }

  /** What is shown is the status's own name; only reopening, which may lead to either of two, shows both. */
  predicate ShowsStatus(event: Event, status: Status) {
    match EventStatus(event)
    case Some(shown) =>
      if event == ReconciledNotCommitted then shown == "pending_or_approved" && status in {Pending, Approved}
      else shown == StatusText(status)
    case None => status == Approved
  }

  lemma StepShowsStatus(ttl: Option<nat>, life: Life, r: Receipt)
    requires Step(ttl, life, r).Live?
    ensures ShowsStatus(r.event, Step(ttl, life, r).status)
  {
  }

  /** Every label is the status the log had reached at that receipt; an unlabelled receipt left the action approved. */
  lemma LabelsFollowLog(ttl: Option<nat>, own: seq<Receipt>, k: nat)
    requires Fold(ttl, own).Live? && k < |own|
    ensures Fold(ttl, own[..k + 1]).Live? && ShowsStatus(own[k].event, Fold(ttl, own[..k + 1]).status)
  {
    hide Step, ShowsStatus;
    PrefixesAreLegal(ttl, own, k + 1);
    assert own[..k + 1][..k] == own[..k];
    StepShowsStatus(ttl, Fold(ttl, own[..k]), own[k]);
  }
}
