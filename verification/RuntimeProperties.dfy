/** The runtime store's promises, for every run from an empty database. */
module RuntimeProperties {
  import opened Basics
  import opened JsonValues
  import opened RuntimeModels
  import opened Transactions
  import opened ReceiptChain
  import opened Lifecycle
  import opened LifeWords
  import opened Controls
  import opened Limits
  import opened StoreInvariant
  import Runs
  import TransactionLaws

  // ---------- the receipt log ----------

  /** Replaying an action's own receipts gives the row's status, decision and error. */
  lemma LogDeterminesRow(lease: nat, ops: seq<Runs.Op>, id: string)
    requires id in Runs.Run(lease, ops).actions
    ensures var t := Runs.Run(lease, ops);
            var row, life := t.actions[id], Fold(t.actions[id].approvalTtl, Own(t.receipts, id));
            && life.Live? && life.effect == row.effect && life.digest == row.digest && life.status == row.status
            && life.decidedBy == row.decidedBy && life.decisionReason == row.decisionReason && life.error == row.error
  {
    RunKeeps(lease, ops);
    hide Inv, Fold, Own;
    RowFacts(Runs.Run(lease, ops), id);
  }

  /** The status a webhook would show for a receipt is the status the log had reached there. */
  lemma WebhookStatusFollowsLog(lease: nat, ops: seq<Runs.Op>, id: string, k: nat)
    requires id in Runs.Run(lease, ops).actions && k < |Own(Runs.Run(lease, ops).receipts, id)|
    ensures var t := Runs.Run(lease, ops);
            var own := Own(t.receipts, id);
            var life := Fold(t.actions[id].approvalTtl, own[..k + 1]);
            life.Live? && ShowsStatus(own[k].event, life.status)
  {
    LogDeterminesRow(lease, ops, id);
    var t := Runs.Run(lease, ops);
    hide Runs.Run, Own, Fold, ShowsStatus;
    LabelsFollowLog(t.actions[id].approvalTtl, Own(t.receipts, id), k);
  }

  /** Approvals are consumed: an action passes its milestones only in the order of its cycle. */
  lemma ApprovalsAreConsumed(lease: nat, ops: seq<Runs.Op>, id: string)
    requires id in Runs.Run(lease, ops).actions
    ensures var t := Runs.Run(lease, ops);
            var word := Milestones(Own(t.receipts, id));
            match t.actions[id].effect
            case RequireApproval => FollowsCycle(word, [ApprovalGranted, ExecutionStarted, ReconciledNotCommitted])
            case Allow => FollowsCycle(word, [ExecutionStarted, ReconciledNotCommitted])
            case Deny => word == []
  {
    LogDeterminesRow(lease, ops, id);
    var t := Runs.Run(lease, ops);
    hide Runs.Run, Own, Fold, Milestones;
    MilestonesFollowCycle(t.actions[id].approvalTtl, Own(t.receipts, id));
  }

  /** At most one start for every start proven not to have run, plus one. */
  lemma StartsAreBounded(lease: nat, ops: seq<Runs.Op>, id: string)
    requires id in Runs.Run(lease, ops).actions
    ensures var own := Own(Runs.Run(lease, ops).receipts, id);
            CountOf(own, ExecutionStarted) == CountOf(own, ReconciledNotCommitted)
              + if Spent(Runs.Run(lease, ops).actions[id].status) then 1 else 0
  {
    LogDeterminesRow(lease, ops, id);
    var t := Runs.Run(lease, ops);
    hide Runs.Run, Own, Fold, CountOf;
    StartsAreCovered(t.actions[id].approvalTtl, Own(t.receipts, id));
  }

  /** A timed approval is used in time, whatever the clocks did: each start precedes the deadline of its latest request. */
  lemma ApprovalsAreTimely(lease: nat, ops: seq<Runs.Op>, id: string, k: nat)
    requires var t := Runs.Run(lease, ops);
             && id in t.actions && t.actions[id].effect == RequireApproval && t.actions[id].approvalTtl.Some?
             && k < |Own(t.receipts, id)| && Own(t.receipts, id)[k].event == ExecutionStarted
    ensures var t := Runs.Run(lease, ops);
            var own := Own(t.receipts, id);
            var request := LatestRequest(own[..k]);
            && request >= 0
            && own[k].timestamp < own[request].timestamp + t.actions[id].approvalTtl.value
  {
    LogDeterminesRow(lease, ops, id);
    var t := Runs.Run(lease, ops);
    hide Runs.Run, Own, Fold, LatestRequest;
    StartsInTime(t.actions[id].approvalTtl, Own(t.receipts, id), k);
  }

  /** Approving a request does not move its deadline. */
  lemma ApprovingKeepsDeadline(t: Tables, id: string, actor: string, reason: Option<string>, now: nat)
    requires Decide(t, id, Approve, actor, reason, now).reply.Returned?
    ensures id in t.actions
    ensures var row := Decide(t, id, Approve, actor, reason, now).tables.actions[id];
            row.status == Approved && row.expiresAt == t.actions[id].expiresAt && (row.expiresAt.Some? ==> now < row.expiresAt.value)
  {
  }

  /** Both logs verify in every reachable database. */
  lemma ChainsAlwaysVerify(lease: nat, ops: seq<Runs.Op>)
    ensures WellLinked(Runs.Run(lease, ops).receipts) && ControlsLinked(Runs.Run(lease, ops).controls)
  {
    RunKeeps(lease, ops);
  }

  /** Receipts are numbered from one without gaps, so a checkpoint is a position in the log. */
  lemma ReceiptsAreNumbered(lease: nat, ops: seq<Runs.Op>)
    ensures Numbered(Runs.Run(lease, ops).receipts)
  {
    RunKeeps(lease, ops);
  }

  /** In every reachable database a listing holds exactly the rows that read as the status asked for. */
  lemma ListingsAreExact(lease: nat, ops: seq<Runs.Op>, status: Option<Status>, now: nat)
    ensures var t := Runs.Run(lease, ops);
            var reply := ListActions(t, status, now).reply;
            reply.Returned? && TransactionLaws.Lists(t, reply.value, status, now)
  {
    RunKeeps(lease, ops);
    var t := Runs.Run(lease, ops);
    hide Runs.Run, Inv;
    forall id | id in t.actions ensures t.actions[id].actionId == id {
      RowFacts(t, id);
    }
    TransactionLaws.ListsExactly(t, status, now);
    hide ListActions, TransactionLaws.Lists;
  }

  // ---------- identity ----------

  /** One key names one action. */
  lemma OneActionPerKey(lease: nat, ops: seq<Runs.Op>, a: string, b: string)
    requires var t := Runs.Run(lease, ops); a in t.actions && b in t.actions && RowKey(t.actions[a]) == RowKey(t.actions[b])
    ensures a == b
  {
    RunKeeps(lease, ops);
    hide Inv, Runs.Run;
    RowFacts(Runs.Run(lease, ops), a);
  }

  /** Once submitted, an action keeps its request, digest and policy effect; a final status keeps its outcome. */
  lemma IdentityIsForever(lease: nat, ops: seq<Runs.Op>, n: nat, id: string)
    requires n <= |ops| && id in Runs.Run(lease, ops[..n]).actions
    ensures id in Runs.Run(lease, ops).actions
    ensures var before, after := Runs.Run(lease, ops[..n]).actions[id], Runs.Run(lease, ops).actions[id];
            && RequestOf(after) == RequestOf(before) && after.digest == before.digest && after.effect == before.effect
            && (before.status in {Denied, Rejected, Expired, Succeeded} ==> after.status == before.status && after.result == before.result)
  {
    RunGrows(lease, ops, n);
  }

  /** The digest binds everything a reviewer saw, in its present and in its legacy form. */
  lemma DigestBinds(a: Request, b: Request)
    requires RequestDigest(a) == RequestDigest(b)
    ensures a.namespace == b.namespace && a.tool == b.tool && a.arguments == b.arguments && a.key == b.key
            && a.policyVersion == b.policyVersion && a.organization == b.organization && a.requester == b.requester
  {
  }

  /** A claim is granted only for the request the row was created for. */
  lemma ClaimBindsRequest(lease: nat, ops: seq<Runs.Op>, id: string, request: Request, now: nat)
    requires Claim(Runs.Run(lease, ops), lease, id, RequestDigest(request), now).reply.Returned?
    ensures id in Runs.Run(lease, ops).actions
    ensures var row := Runs.Run(lease, ops).actions[id];
            && row.namespace == request.namespace && row.tool == request.tool && row.arguments == request.arguments
            && row.key == request.key && row.policyVersion == request.policyVersion
            && row.organization == request.organization && row.requester == request.requester
  {
    RunKeeps(lease, ops);
    var t := Runs.Run(lease, ops);
    hide Inv, Fold, Own, Runs.Run, ClaimApproved;
    RowFacts(t, id);
    DigestBinds(RequestOf(t.actions[id]), request);
  }

  // ---------- controls ----------

  /** Active pauses and full limit definitions are a replay of the control receipts. */
  lemma ControlsAreTheirLog(lease: nat, ops: seq<Runs.Op>)
    ensures Runs.Run(lease, ops).pauses == ReplayPauses(Runs.Run(lease, ops).controls)
    ensures Runs.Run(lease, ops).limits == ReplayLimits(Runs.Run(lease, ops).controls)
  {
    RunKeeps(lease, ops);
  }

  // ---------- limits ----------

  /** Every usage row is the sum of its open reservations, in actions and in value, and never negative. */
  lemma UsageIsReserved(lease: nat, ops: seq<Runs.Op>, bucket: Bucket)
    requires bucket in Runs.Run(lease, ops).usage
    ensures var t := Runs.Run(lease, ops);
            && t.usage[bucket] == OpenUsage(t.reservations, bucket)
            && t.usage[bucket].actions >= 0 && t.usage[bucket].value >= 0
  {
    RunKeeps(lease, ops);
  }

  /** Only executing, unknown and succeeded actions hold capacity, at most once per limit, in a window with a usage row. */
  lemma CapacityFollowsStatus(lease: nat, ops: seq<Runs.Op>, i: nat)
    requires i < |Runs.Run(lease, ops).reservations| && Runs.Run(lease, ops).reservations[i].releasedAt.None?
    ensures var t := Runs.Run(lease, ops);
            var r := t.reservations[i];
            && r.bucket in t.usage && r.actionId in t.actions && t.actions[r.actionId].status in {Executing, Unknown, Succeeded}
            && forall j | 0 <= j < |t.reservations| && j != i && t.reservations[j].releasedAt.None? ::
                 !(t.reservations[j].actionId == r.actionId && t.reservations[j].bucket.limitId == r.bucket.limitId)
  {
    RunKeeps(lease, ops);
    var t := Runs.Run(lease, ops);
    hide Runs.Run, Fold, Own, SoundRows, SoundIndex, UnderCeilings, ControlsReplayed, WellLinked, ControlsLinked, Balanced;
    assert SoundReservation(t, t.reservations[i]);
  }

  /** `ValueCeiling` is the largest value maximum ever configured. */
  lemma {:induction false} ValueCeilingIsLargest(controls: seq<ControlReceipt>, limitId: string)
    ensures forall r <- controls :: Configures(r, limitId) && ConfiguredRow(r).maxValue.Some? ==>
                                      ConfiguredRow(r).maxValue.value <= ValueCeiling(controls, limitId)
    ensures ValueCeiling(controls, limitId) > 0 ==>
              exists r <- controls :: Configures(r, limitId) && ConfiguredRow(r).maxValue == Some(ValueCeiling(controls, limitId))
  {
    if controls != [] {
      var earlier, last := controls[..|controls| - 1], controls[|controls| - 1];
      hide ConfiguredRow, LimitIn;
      ValueCeilingIsLargest(earlier, limitId);
      assert controls == earlier + [last];
      if ValueCeiling(controls, limitId) > 0 {
        if ValueCeiling(controls, limitId) == ValueCeiling(earlier, limitId) {
          var r :| r in earlier && Configures(r, limitId) && ConfiguredRow(r).maxValue == Some(ValueCeiling(earlier, limitId));
          assert r in controls;
        } else {
          assert last in controls;
        }
      }
    }
  }

  /** `ActionCeiling` is the largest action maximum ever configured, when no configuration left it open. */
  lemma {:induction false} ActionCeilingIsLargest(controls: seq<ControlReceipt>, limitId: string)
    ensures ActionCeiling(controls, limitId).Some? <==>
              forall r <- controls :: Configures(r, limitId) ==> ConfiguredRow(r).maxActions.Some?
    ensures ActionCeiling(controls, limitId).Some? ==>
              forall r <- controls :: Configures(r, limitId) ==> ConfiguredRow(r).maxActions.value <= ActionCeiling(controls, limitId).value
  {
    if controls != [] {
      var earlier, last := controls[..|controls| - 1], controls[|controls| - 1];
      hide ConfiguredRow, LimitIn;
      ActionCeilingIsLargest(earlier, limitId);
      assert controls == earlier + [last];
    }
  }

  /** Value in use never exceeds the largest maximum ever configured, so it fits the database's integers. */
  lemma ValueNeverAboveHistory(lease: nat, ops: seq<Runs.Op>, bucket: Bucket)
    requires bucket in Runs.Run(lease, ops).usage
    ensures var t := Runs.Run(lease, ops);
            t.usage[bucket].value <= ValueCeiling(t.controls, bucket.limitId) <= MAX_SQL_INTEGER
    ensures var t := Runs.Run(lease, ops);
            ActionCeiling(t.controls, bucket.limitId).Some? ==>
              t.usage[bucket].actions <= ActionCeiling(t.controls, bucket.limitId).value
  {
    RunKeeps(lease, ops);
    var t := Runs.Run(lease, ops);
    hide Runs.Run, SoundRows, SoundIndex, SoundBooks, ControlsReplayed, WellLinked, ControlsLinked, ValueCeiling, ActionCeiling;
    assert UsageUnderCeilings(t.controls, bucket.limitId, t.usage[bucket]);
  }

  // ---------- any span as long as a window ----------

  /** An open reservation of the limit whose action last started in the half-open span. */
  predicate StartedWithin(t: Tables, r: Reservation, limitId: string, from: nat, until: nat) {
    && r.bucket.limitId == limitId && r.releasedAt.None? && r.actionId in t.actions
    && LifeOf(t, r.actionId).Live? && LifeOf(t, r.actionId).started.Some?
    && from <= LifeOf(t, r.actionId).started.value < until
  }

  /** Actions and value of the unreleased starts in a span, among some reservations. */
  function StartedUsage(t: Tables, reservations: seq<Reservation>, limitId: string, from: nat, until: nat): Usage {
    if reservations == [] then Usage(0, 0)
    else
      var u := StartedUsage(t, reservations[..|reservations| - 1], limitId, from, until);
      var r := reservations[|reservations| - 1];
      if StartedWithin(t, r, limitId, from, until) then Usage(u.actions + r.actions, u.value + r.value) else u
  }

  /** A span no longer than a window meets at most two aligned windows. */
  lemma SpanMeetsTwoWindows(from: nat, at: nat, window: nat)
    requires window > 0 && from <= at < from + window
    ensures WindowStart(at, window) == WindowStart(from, window) || WindowStart(at, window) == WindowStart(from, window) + window
  {
    var q := Aligned(from, window);
    var p := Aligned(at, window);
    hide WindowStart;
    OneMore(q, window);
    if p < q {
      Apart(p, q, window);
    } else if q + 1 < p {
      Apart(q + 1, p, window);
    }
  }

  lemma OneMore(n: nat, window: nat)
    ensures (n + 1) * window == n * window + window
  {
  }

  /** A window starts at a multiple of its length, at or before the time it contains. */
  lemma Aligned(at: nat, window: nat) returns (n: nat)
    requires window > 0
    ensures WindowStart(at, window) == n * window && n * window <= at < n * window + window
  {
    n := at / window;
    assert at == n * window + at % window;
  }

  lemma Apart(a: nat, b: nat, window: nat)
    requires a < b
    ensures a * window + window <= b * window
  {
    var gap := b - a - 1;
    assert b * window == a * window + window + gap * window;
  }

  lemma {:induction false} SpanFitsTwoWindows(t: Tables, reservations: seq<Reservation>, limitId: string, from: nat)
    requires limitId in t.limits && forall r <- reservations :: SoundReservation(t, r)
    ensures var window := t.limits[limitId].window;
            var first, second := Bucket(limitId, WindowStart(from, window)), Bucket(limitId, WindowStart(from, window) + window);
            var started := StartedUsage(t, reservations, limitId, from, from + window);
            && started.actions <= OpenUsage(reservations, first).actions + OpenUsage(reservations, second).actions
            && started.value <= OpenUsage(reservations, first).value + OpenUsage(reservations, second).value
  {
    if reservations != [] {
      var n := |reservations| - 1;
      var r := reservations[n];
      hide LifeOf, WindowStart;
      SpanFitsTwoWindows(t, reservations[..n], limitId, from);
      if StartedWithin(t, r, limitId, from, from + t.limits[limitId].window) {
        assert SoundReservation(t, r);
        SpanMeetsTwoWindows(from, LifeOf(t, r.actionId).started.value, t.limits[limitId].window);
      }
    }
  }

  /**
   * Whatever the clocks did, a half-open span as long as the limit's window contains at most twice the largest
   * maximum ever configured of unreleased starts, in actions and in value.
   */
  lemma SpanHoldsTwiceMaximum(lease: nat, ops: seq<Runs.Op>, limitId: string, from: nat)
    requires limitId in Runs.Run(lease, ops).limits
    ensures var t := Runs.Run(lease, ops);
            var started := StartedUsage(t, t.reservations, limitId, from, from + t.limits[limitId].window);
            && started.value <= 2 * ValueCeiling(t.controls, limitId)
            && (ActionCeiling(t.controls, limitId).Some? ==> started.actions <= 2 * ActionCeiling(t.controls, limitId).value)
  {
    hide *;
    BooksInRuns(lease, ops);
    var t := Runs.Run(lease, ops);
    var window := t.limits[limitId].window;
    SpanFitsTwoWindows(t, t.reservations, limitId, from);
    BucketUnderCeilings(t, Bucket(limitId, WindowStart(from, window)));
    BucketUnderCeilings(t, Bucket(limitId, WindowStart(from, window) + window));
  }

  lemma BooksInRuns(lease: nat, ops: seq<Runs.Op>)
    ensures var t := Runs.Run(lease, ops);
            SoundBooks(t) && UnderCeilings(t) && forall r <- t.reservations :: SoundReservation(t, r)
  {
    RunKeeps(lease, ops);
    hide Runs.Run, SoundRows, SoundIndex, ControlsReplayed, WellLinked, ControlsLinked, UnderCeilings, SoundReservation, Balanced, OncePerLimit;
  }

  lemma BucketUnderCeilings(t: Tables, bucket: Bucket)
    requires SoundBooks(t) && UnderCeilings(t) && bucket.limitId in t.limits
    ensures OpenUsage(t.reservations, bucket).value <= ValueCeiling(t.controls, bucket.limitId)
    ensures ActionCeiling(t.controls, bucket.limitId).Some? ==>
              OpenUsage(t.reservations, bucket).actions <= ActionCeiling(t.controls, bucket.limitId).value
  {
    hide ValueCeiling, ActionCeiling, OpenUsage, SoundReservation, OncePerLimit;
    if bucket in t.usage {
      assert UsageUnderCeilings(t.controls, bucket.limitId, t.usage[bucket]);
    } else {
      NoRowNoUsage(t.reservations, bucket);
    }
  }
}
