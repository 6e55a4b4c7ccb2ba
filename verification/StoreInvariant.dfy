/** What every transaction keeps, whoever runs it and whatever the clock says. */
module StoreInvariant {
  import opened Basics
  import opened JsonValues
  import opened RuntimeModels
  import opened Transactions
  import opened ReceiptChain
  import opened Lifecycle
  import opened Controls
  import opened Limits
  import Runs

  ghost predicate Inv(t: Tables) {
    && SoundRows(t) && SoundIndex(t) && WellLinked(t.receipts) && Numbered(t.receipts)
    && SoundBooks(t) && UnderCeilings(t)
    && ControlsReplayed(t) && ControlsLinked(t.controls)
  }

  /** What a row was bound to when it was created. */
  predicate SameIdentity(a: Action, b: Action) {
    && a.actionId == b.actionId && RequestOf(a) == RequestOf(b) && a.digest == b.digest
    && a.rule == b.rule && a.effect == b.effect && a.approvalTtl == b.approvalTtl
  }

  predicate Final(status: Status) {
    status in {Denied, Rejected, Expired, Succeeded}
  }

  /** Rows keep their identity, final rows keep their outcome, logs only grow. */
  predicate Grows(a: Tables, b: Tables) {
    && (forall id | id in a.actions ::
          && id in b.actions && SameIdentity(a.actions[id], b.actions[id])
          && (Final(a.actions[id].status) ==>
                b.actions[id].status == a.actions[id].status && b.actions[id].result == a.actions[id].result))
    && a.receipts <= b.receipts && a.controls <= b.controls
  }

  lemma GrowsReflexive(a: Tables)
    ensures Grows(a, a)
  {
  }

  lemma SameRowsGrow(a: Tables, b: Tables, c: Tables)
    requires Grows(a, b) && c.actions == b.actions && c.receipts == b.receipts && c.controls == b.controls
    ensures Grows(a, c)
  {
  }

  lemma GrowsTransitive(a: Tables, b: Tables, c: Tables)
    requires Grows(a, b) && Grows(b, c)
    ensures Grows(a, c)
  {
  }

  // ---------- one written row ----------

  /** Capacity follows the status: what an action holds open, it started in the window it is booked in. */
  predicate KeepsHolding(t: Tables, id: string, row: Action, event: Event, now: nat, actor: Option<string>,
                         detail: Option<Text>) {
    || HoldsNothing(t.reservations, id)
    || (id in t.actions && Spent(row.status) && LifeOf(t, id).Live?
        && var after := Step(row.approvalTtl, LifeOf(t, id), Appended(t, id, event, now, row.digest, actor, detail));
           after.Live? && after.started == LifeOf(t, id).started)
  }

  predicate KeepsOutcome(t: Tables, id: string, row: Action) {
    id in t.actions ==>
      && SameIdentity(t.actions[id], row)
      && (Final(t.actions[id].status) ==> row.status == t.actions[id].status && row.result == t.actions[id].result)
  }

  lemma RecordKeepsBooks(t: Tables, id: string, row: Action, event: Event, now: nat, actor: Option<string>,
                         detail: Option<Text>)
    requires SoundRows(t) && SoundBooks(t)
    requires Legal(t, id, row, event, now, actor, detail) && KeepsHolding(t, id, row, event, now, actor, detail)
    ensures SoundBooks(Record(t, id, row, event, now, actor, detail))
  {
    var t1 := Record(t, id, row, event, now, actor, detail);
    LivesAfterRecord(t, id, row, event, now, actor, detail);
    forall r | r in t1.reservations ensures SoundReservation(t1, r) {
      assert SoundReservation(t, r);
    }
  }

  lemma RecordKeeps(t: Tables, id: string, row: Action, event: Event, now: nat, actor: Option<string>,
                    detail: Option<Text>)
    requires Inv(t)
    requires Legal(t, id, row, event, now, actor, detail) && KeepsHolding(t, id, row, event, now, actor, detail)
    requires KeepsOutcome(t, id, row)
    ensures Inv(Record(t, id, row, event, now, actor, detail))
    ensures Grows(t, Record(t, id, row, event, now, actor, detail))
  {
    hide WellLinked, Numbered, Legal, KeepsHolding, SoundRow, SoundReservation, OpenUsage, SoundIndex, OncePerLimit;
    hide ReplayPauses, ReplayLimits, ValueCeiling, ActionCeiling, LimitUnderCeilings, UsageUnderCeilings;
    RecordKeepsRows(t, id, row, event, now, actor, detail);
    RecordKeepsIndex(t, id, row, event, now, actor, detail);
    RecordKeepsBooks(t, id, row, event, now, actor, detail);
    AppendKeepsLinks(t.receipts, id, event, now, row.digest, actor, detail);
    AppendKeepsNumbers(t.receipts, id, event, now, row.digest, actor, detail);
  }

  /** What the invariant says about one row. */
  lemma RowFacts(t: Tables, id: string)
    requires Inv(t) && id in t.actions
    ensures SoundRow(t, id) && SoundIndex(t)
    ensures !Spent(t.actions[id].status) ==> HoldsNothing(t.reservations, id)
  {
    hide SoundRow, SoundIndex, OncePerLimit, Balanced, UnderCeilings, ControlsReplayed, ControlsLinked, WellLinked;
    assert SoundRow(t, id);
    if !Spent(t.actions[id].status) {
      forall r | r in t.reservations ensures !Held(r, id) {
        assert SoundReservation(t, r);
      }
    }
  }

  lemma NoteKeeps(t: Tables, id: string, event: Event, now: nat, detail: Option<Text>)
    requires Inv(t) && id in t.actions
    requires (event == ResultReplayed && t.actions[id].status == Succeeded)
          || (event in {PauseBlocked, LimitBlocked} && t.actions[id].status == Approved)
    ensures Inv(Note(t, id, t.actions[id], event, now, detail)) && Grows(t, Note(t, id, t.actions[id], event, now, detail))
  {
    hide Inv, Grows, Own, Fold, HoldsNothing, SoundIndex;
    RowFacts(t, id);
    NoteIsRecord(t, id, event, now, detail);
    RecordKeeps(t, id, t.actions[id], event, now, RUNTIME, detail);
  }

  // ---------- transactions on one action ----------

  lemma RefreshExpiryKeeps(t: Tables, id: string, now: nat)
    requires Inv(t) && id in t.actions
    ensures Inv(RefreshExpiry(t, id, now)) && Grows(t, RefreshExpiry(t, id, now))
  {
    GrowsReflexive(t);
    hide Inv, Grows, Own, Fold, HoldsNothing;
    RowFacts(t, id);
    if ApprovalIsLate(t.actions[id], now) {
      RecordKeeps(t, id, t.actions[id].(status := Expired, updatedAt := now), ApprovalLapsed, now, RUNTIME, None);
    }
  }

  lemma RefreshKeeps(t: Tables, id: string, now: nat)
    requires Inv(t) && id in t.actions
    ensures Inv(RefreshState(t, id, now)) && Grows(t, RefreshState(t, id, now))
  {
    hide Inv, Grows, Own, Fold, HoldsNothing;
    RefreshExpiryKeeps(t, id, now);
    var t1 := RefreshExpiry(t, id, now);
    var row := t1.actions[id];
    RowFacts(t1, id);
    if LeaseIsLate(row, now) {
      var row1 := row.(status := Unknown, updatedAt := now, error := Some(LEASE_LOST), leaseExpiresAt := None);
      RecordKeeps(t1, id, row1, ExecutionAbandoned, now, RUNTIME, Some(Raw(LEASE_LOST)));
      GrowsTransitive(t, t1, RefreshState(t, id, now));
    }
  }

  lemma NewRowFacts(t: Tables, request: Request)
    requires Inv(t) && FindByKey(t, RequestKey(request)).None? && request.actionId !in t.actions
    ensures RequestKey(request) !in t.index && HoldsNothing(t.reservations, request.actionId)
  {
    forall r | r in t.reservations ensures !Held(r, request.actionId) {
      assert SoundReservation(t, r);
    }
  }

  lemma NamesAreNotAny(request: Request)
    requires ValidRequest(request)
    ensures request.namespace != ANY && request.tool != ANY
  {
  }

  lemma SubmitKeeps(t: Tables, request: Request, decision: PolicyDecision, now: nat)
    requires Inv(t)
    ensures Inv(Submit(t, request, decision, now).tables) && Grows(t, Submit(t, request, decision, now).tables)
  {
    GrowsReflexive(t);
    hide Inv, Grows, Own, Fold, HoldsNothing, RefreshState, Blank, Label;
    var tx := Submit(t, request, decision, now);
    var found := FindByKey(t, RequestKey(request));
    if found.Some? {
      RefreshKeeps(t, found.value, now);
    } else if tx.reply.Returned? {
      var row := NewRow(request, decision, now);
      NewRowFacts(t, request);
      NamesAreNotAny(request);
      RecordKeeps(t, request.actionId, row, PolicyEvent(decision.effect), now, POLICY, Some(Raw(PolicyDetail(decision))));
    }
  }

  lemma DecidedKeeps(t: Tables, id: string, decision: Decision, actor: string, reason: Option<string>, now: nat)
    requires Inv(t) && id in t.actions
    ensures Inv(Decided(t, id, decision, actor, reason, now).tables) && Grows(t, Decided(t, id, decision, actor, reason, now).tables)
  {
    GrowsReflexive(t);
    hide Inv, Grows, Legal, KeepsHolding, KeepsOutcome;
    var tx := Decided(t, id, decision, actor, reason, now);
    if t.actions[id].status == Pending {
      DecidingIsLegal(t, id, decision, actor, reason, now);
      var event := if decision.Approve? then ApprovalGranted else Event.ApprovalRejected;
      RecordKeeps(t, id, tx.tables.actions[id], event, now, Some(actor), TextOf(reason));
    }
  }

  lemma DecidingIsLegal(t: Tables, id: string, decision: Decision, actor: string, reason: Option<string>, now: nat)
    requires Inv(t) && id in t.actions && t.actions[id].status == Pending
    ensures var row := Decided(t, id, decision, actor, reason, now).reply.value;
            var event := if decision.Approve? then ApprovalGranted else Event.ApprovalRejected;
            && Legal(t, id, row, event, now, Some(actor), TextOf(reason))
            && KeepsHolding(t, id, row, event, now, Some(actor), TextOf(reason))
            && KeepsOutcome(t, id, row)
  {
    hide Inv, Own, Fold, HoldsNothing, Record;
    RowFacts(t, id);
  }

  lemma DecideKeeps(t: Tables, id: string, decision: Decision, actor: string, reason: Option<string>, now: nat)
    requires Inv(t)
    ensures Inv(Decide(t, id, decision, actor, reason, now).tables) && Grows(t, Decide(t, id, decision, actor, reason, now).tables)
  {
    GrowsReflexive(t);
    hide Inv, Grows, Decided, RefreshState;
    if id in t.actions {
      var t1 := RefreshState(t, id, now);
      RefreshKeeps(t, id, now);
      DecidedKeeps(t1, id, decision, actor, reason, now);
      GrowsTransitive(t, t1, Decided(t1, id, decision, actor, reason, now).tables);
    }
  }

  lemma DecideAuthorizedKeeps(t: Tables, id: string, decision: Decision, auth: Authorization, reason: Option<string>,
                              now: nat)
    requires Inv(t)
    ensures Inv(DecideAuthorized(t, id, decision, auth, reason, now).tables)
    ensures Grows(t, DecideAuthorized(t, id, decision, auth, reason, now).tables)
  {
    GrowsReflexive(t);
    hide Inv, Grows, Decided, RefreshState;
    if id in t.actions {
      var t1 := RefreshState(t, id, now);
      RefreshKeeps(t, id, now);
      DecidedKeeps(t1, id, decision, auth.actor, reason, now);
      GrowsTransitive(t, t1, Decided(t1, id, decision, auth.actor, reason, now).tables);
    }
  }

  lemma CompleteKeeps(t: Tables, id: string, digest: Digest, result: PyValue, now: nat)
    requires Inv(t)
    ensures Inv(Complete(t, id, digest, result, now).tables) && Grows(t, Complete(t, id, digest, result, now).tables)
  {
    GrowsReflexive(t);
    hide Inv, Grows, Own, Fold, HoldsNothing;
    var tx := Complete(t, id, digest, result, now);
    if tx.reply.Returned? {
      RowFacts(t, id);
      RecordKeeps(t, id, tx.reply.value, ExecutionSucceeded, now, RUNTIME, None);
    }
  }

  lemma MarkUnknownKeeps(t: Tables, id: string, digest: Digest, error: string, now: nat)
    requires Inv(t)
    ensures Inv(MarkUnknown(t, id, digest, error, now).tables) && Grows(t, MarkUnknown(t, id, digest, error, now).tables)
  {
    GrowsReflexive(t);
    hide Inv, Grows, Own, Fold, HoldsNothing;
    var tx := MarkUnknown(t, id, digest, error, now);
    if tx.reply.Returned? {
      RowFacts(t, id);
      RecordKeeps(t, id, tx.reply.value, ExecutionUnknown, now, RUNTIME, Some(Raw(error)));
    }
  }

  // ---------- release ----------

  /** The tables with an action's capacity given back. */
  function Released(t: Tables, id: string, now: nat): Tables {
    WithBooks(t, Release(Books(t.usage, t.reservations), id, now, |t.reservations|))
  }

  lemma ReleaseKeepsBooks(t: Tables, id: string, now: nat)
    requires SoundBooks(t)
    ensures SoundBooks(Released(t, id, now)) && HoldsNothing(Released(t, id, now).reservations, id)
  {
    hide Fold, Own, OpenUsage, Release;
    var t1 := Released(t, id, now);
    ReleaseEffect(Books(t.usage, t.reservations), id, now, |t.reservations|);
    forall r | r in t1.reservations ensures SoundReservation(t1, r) && !Held(r, id) {
      var i :| 0 <= i < |t1.reservations| && t1.reservations[i] == r;
      assert SoundReservation(t, t.reservations[i]);
    }
  }

  lemma {:induction false} LessOpenLessUsed(a: seq<Reservation>, b: seq<Reservation>, bucket: Bucket)
    requires |a| == |b| && forall i | 0 <= i < |a| :: b[i] == a[i] || (b[i].releasedAt.Some? && b[i].(releasedAt := None) == a[i])
    ensures OpenUsage(b, bucket).actions <= OpenUsage(a, bucket).actions && OpenUsage(b, bucket).value <= OpenUsage(a, bucket).value
  {
    if a != [] {
      LessOpenLessUsed(a[..|a| - 1], b[..|b| - 1], bucket);
    }
  }

  lemma ReleaseStaysUnderCeilings(t: Tables, id: string, now: nat)
    requires UnderCeilings(t) && Balanced(Books(t.usage, t.reservations))
    ensures UnderCeilings(Released(t, id, now))
  {
    hide OpenUsage, Release, ValueCeiling, ActionCeiling;
    var after := Released(t, id, now);
    ReleaseEffect(Books(t.usage, t.reservations), id, now, |t.reservations|);
    forall bucket | bucket in after.usage ensures UsageUnderCeilings(t.controls, bucket.limitId, after.usage[bucket]) {
      LessOpenLessUsed(t.reservations, after.reservations, bucket);
      assert UsageUnderCeilings(t.controls, bucket.limitId, t.usage[bucket]);
    }
  }

  lemma ReleaseKeeps(t: Tables, id: string, now: nat)
    requires Inv(t)
    ensures Inv(Released(t, id, now)) && HoldsNothing(Released(t, id, now).reservations, id)
  {
    hide SoundBooks, UnderCeilings, Release, SoundRows, SoundIndex, HoldsNothing, Balanced;
    ReleaseKeepsBooks(t, id, now);
    InvBalanced(t);
    ReleaseStaysUnderCeilings(t, id, now);
    BooksLeaveRows(t, Release(Books(t.usage, t.reservations), id, now, |t.reservations|));
  }

  lemma InvBalanced(t: Tables)
    requires SoundBooks(t)
    ensures Balanced(Books(t.usage, t.reservations))
  {
  }

  /** Rows and their lives do not depend on the books. */
  lemma BooksLeaveRows(t: Tables, books: Books)
    requires SoundRows(t) && SoundIndex(t)
    ensures SoundRows(WithBooks(t, books)) && SoundIndex(WithBooks(t, books))
  {
    hide Own, Fold, Matches;
    forall other | other in t.actions ensures SoundRow(WithBooks(t, books), other) {
      assert SoundRow(t, other);
    }
  }

  lemma CommittedKeeps(t: Tables, id: string, actor: string, reason: string, result: Json, now: nat)
    requires Inv(t) && id in t.actions && t.actions[id].status == Unknown
    ensures var row := ReconciledRow(t.actions[id], Committed, Some(result), now).value;
            var t1 := Record(t, id, row, ReconciledCommitted, now, Some(actor), Some(Raw(reason)));
            Inv(t1) && Grows(t, t1)
  {
    hide Inv, Grows, Own, Fold, HoldsNothing;
    RowFacts(t, id);
    var row := ReconciledRow(t.actions[id], Committed, Some(result), now).value;
    RecordKeeps(t, id, row, ReconciledCommitted, now, Some(actor), Some(Raw(reason)));
  }

  lemma NotCommittedKeeps(t: Tables, id: string, actor: string, reason: string, now: nat)
    requires Inv(t) && id in t.actions && t.actions[id].status == Unknown && HoldsNothing(t.reservations, id)
    ensures ReconciledRow(t.actions[id], NotCommitted, None, now).Some?
    ensures var row := ReconciledRow(t.actions[id], NotCommitted, None, now).value;
            var t1 := Record(t, id, row, ReconciledNotCommitted, now, Some(actor), Some(Raw(reason)));
            Inv(t1) && Grows(t, t1)
  {
    hide Inv, Grows, Own, Fold, HoldsNothing;
    RowFacts(t, id);
    var row := ReconciledRow(t.actions[id], NotCommitted, None, now).value;
    RecordKeeps(t, id, row, ReconciledNotCommitted, now, Some(actor), Some(Raw(reason)));
  }

  lemma ReconcileKeeps(t: Tables, id: string, outcome: Reconciliation, actor: string, reason: string, result: PyValue,
                       now: nat)
    requires Inv(t)
    ensures Inv(Reconcile(t, id, outcome, actor, reason, result, now).tables)
    ensures Grows(t, Reconcile(t, id, outcome, actor, reason, result, now).tables)
  {
    GrowsReflexive(t);
    hide Inv, Grows, HoldsNothing, RefreshState, Release, Record, ReconciledRow;
    var tx := Reconcile(t, id, outcome, actor, reason, result, now);
    if tx.reply.Returned? {
      RefreshKeeps(t, id, now);
      var t1 := RefreshState(t, id, now);
      if outcome.Committed? {
        CommittedKeeps(t1, id, actor, reason, result.json, now);
        GrowsTransitive(t, t1, tx.tables);
      } else {
        ReleaseKeeps(t1, id, now);
        SameRowsGrow(t, t1, Released(t1, id, now));
        NotCommittedKeeps(Released(t1, id, now), id, actor, reason, now);
        GrowsTransitive(t, Released(t1, id, now), tx.tables);
      }
    }
  }

  // ---------- claims ----------

  /** A fresh start may take up the plan that admitted it. */
  predicate StartPlan(t: Tables, id: string, plan: seq<Reservation>, now: nat) {
    && DistinctLimits(plan)
    && (forall r <- plan :: r.actionId == id && r.releasedAt.None? && r.actions == 1 && r.bucket.limitId in t.limits
                            && r.bucket.start == WindowStart(now, t.limits[r.bucket.limitId].window))
    && id in t.actions && t.actions[id].status == Executing && LifeOf(t, id).Live? && LifeOf(t, id).started == Some(now)
    && HoldsNothing(t.reservations, id)
  }

  function Booked(t: Tables, plan: seq<Reservation>): Tables {
    WithBooks(t, BookAll(Books(t.usage, t.reservations), plan))
  }

  lemma PlanOncePerLimit(reservations: seq<Reservation>, id: string, plan: seq<Reservation>)
    requires OncePerLimit(reservations) && HoldsNothing(reservations, id) && DistinctLimits(plan)
    requires forall r <- plan :: r.actionId == id
    ensures OncePerLimit(reservations + plan)
  {
    var all := reservations + plan;
    var n := |reservations|;
    forall i, j | 0 <= i < j < |all| && all[i].releasedAt.None? && all[j].releasedAt.None?
      ensures !(all[i].actionId == all[j].actionId && all[i].bucket.limitId == all[j].bucket.limitId)
    {
      if i < n <= j {
        assert all[i] in reservations && !Held(all[i], id);
        assert all[j] in plan;
      } else if n <= i {
        assert all[i] == plan[i - n] && all[j] == plan[j - n];
      }
    }
  }

  lemma StartKeepsBooks(t: Tables, id: string, plan: seq<Reservation>, now: nat)
    requires SoundBooks(t) && StartPlan(t, id, plan, now)
    ensures SoundBooks(Booked(t, plan))
  {
    hide Fold, Own, Step, OpenUsage, BookAll;
    var t1 := Booked(t, plan);
    BookAllKeepsBalance(Books(t.usage, t.reservations), plan);
    PlanOncePerLimit(t.reservations, id, plan);
    forall r | r in t1.reservations ensures SoundReservation(t1, r) {
      if r in t.reservations {
        assert SoundReservation(t, r);
      } else {
        assert r in plan;
      }
    }
  }

  /** Every reservation of an accepted plan fits under its limit. */
  lemma PlanFits(t: Tables, id: string, row: Action, now: nat)
    requires Plan(t, MatchingLimits(t.limits, row), id, row, now).Returned?
    ensures var ids := MatchingLimits(t.limits, row);
            var plan := Plan(t, ids, id, row, now).value;
            && |plan| == |ids| && DistinctLimits(plan)
            && forall i | 0 <= i < |ids| ::
                 && Requested(row, t.limits[ids[i]]).Some?
                 && plan[i] == Reservation(id, Bucket(ids[i], WindowStart(now, t.limits[ids[i]].window)), 1,
                                           Requested(row, t.limits[ids[i]]).value, None)
                 && FitsUnder(t.limits[ids[i]], UsedIn(t.usage, plan[i].bucket), plan[i])
  {
    var ids := MatchingLimits(t.limits, row);
    MatchingLimitsExact(t.limits, row);
    PlanAnswers(t, ids, id, row, now);
    var plan := Plan(t, ids, id, row, now).value;
    forall i | 0 <= i < |ids|
      ensures Requested(row, t.limits[ids[i]]).Some?
      ensures plan[i] == Reservation(id, Bucket(ids[i], WindowStart(now, t.limits[ids[i]].window)), 1,
                                     Requested(row, t.limits[ids[i]]).value, None)
      ensures FitsUnder(t.limits[ids[i]], UsedIn(t.usage, plan[i].bucket), plan[i])
    {
      assert Admit(t.usage, ids[i], t.limits[ids[i]], id, row, now) == Returned(plan[i]);
    }
  }

  /** The limit has room for a reservation on top of what its window already holds. */
  predicate FitsUnder(limit: Limit, used: Usage, r: Reservation) {
    && (limit.maxActions.Some? ==> used.actions + r.actions <= limit.maxActions.value)
    && (limit.maxValue.Some? ==> used.value + r.value <= limit.maxValue.value)
    && (limit.maxValue.None? ==> r.value == 0)
  }

  lemma StartStaysUnderCeilings(t: Tables, plan: seq<Reservation>)
    requires UnderCeilings(t) && DistinctLimits(plan)
    requires forall r <- plan :: r.bucket.limitId in t.limits && FitsUnder(t.limits[r.bucket.limitId], UsedIn(t.usage, r.bucket), r)
    requires forall r <- plan :: r.releasedAt.None?
    requires Balanced(Books(t.usage, t.reservations))
    ensures UnderCeilings(Booked(t, plan))
  {
    hide ValueCeiling, ActionCeiling, BookAll, OpenUsage, Balanced;
    var books := Books(t.usage, t.reservations);
    var after := Booked(t, plan).usage;
    BookAllUsage(books, plan);
    BookAllKeepsBalance(books, plan);
    forall bucket | bucket in after ensures UsageUnderCeilings(t.controls, bucket.limitId, after[bucket]) {
      assert UsedIn(after, bucket) == after[bucket];
      if InPlan(plan, bucket) {
        var i :| 0 <= i < |plan| && plan[i].bucket == bucket;
        assert plan[i] in plan;
        assert LimitUnderCeilings(t.controls, bucket.limitId, t.limits[bucket.limitId]);
        assert bucket in t.usage ==> UsageUnderCeilings(t.controls, bucket.limitId, t.usage[bucket]);
      } else {
        assert bucket in t.usage;
        assert UsageUnderCeilings(t.controls, bucket.limitId, t.usage[bucket]);
      }
    }
  }

  lemma BookedKeeps(t: Tables, id: string, row: Action, plan: seq<Reservation>, now: nat)
    requires Inv(t) && StartPlan(t, id, plan, now)
    requires Plan(t, MatchingLimits(t.limits, row), id, row, now) == Returned(plan)
    ensures Inv(Booked(t, plan))
  {
    hide SoundBooks, UnderCeilings, BookAll, SoundRows, SoundIndex, Balanced, Plan, StartPlan;
    PlanFits(t, id, row, now);
    forall r | r in plan
      ensures r.bucket.limitId in t.limits && r.releasedAt.None?
      ensures FitsUnder(t.limits[r.bucket.limitId], UsedIn(t.usage, r.bucket), r)
    {
      var i :| 0 <= i < |plan| && plan[i] == r;
    }
    StartKeepsBooks(t, id, plan, now);
    InvBalanced(t);
    StartStaysUnderCeilings(t, plan);
    BooksLeaveRows(t, BookAll(Books(t.usage, t.reservations), plan));
  }

  /** The tables of a granted claim, before its reservations are booked. */
  function Started(t: Tables, lease: nat, id: string, now: nat): Tables
    requires id in t.actions
  {
    Record(t, id, t.actions[id].(status := Executing, updatedAt := now, leaseExpiresAt := Some(now + lease)),
           ExecutionStarted, now, RUNTIME, None)
  }

  lemma StartedKeeps(t: Tables, lease: nat, id: string, now: nat)
    requires Inv(t) && id in t.actions && t.actions[id].status == Approved && !ApprovalIsLate(t.actions[id], now)
    ensures var t1 := Started(t, lease, id, now);
            Inv(t1) && Grows(t, t1) && LifeOf(t1, id).Live? && LifeOf(t1, id).started == Some(now) && HoldsNothing(t1.reservations, id)
  {
    hide Inv, Grows, Legal, KeepsHolding, KeepsOutcome, HoldsNothing, LifeOf;
    StartingIsLegal(t, lease, id, now);
    var row := t.actions[id].(status := Executing, updatedAt := now, leaseExpiresAt := Some(now + lease));
    RecordKeeps(t, id, row, ExecutionStarted, now, RUNTIME, None);
    StartedLife(t, lease, id, now);
  }

  lemma StartedLife(t: Tables, lease: nat, id: string, now: nat)
    requires Inv(t) && id in t.actions && t.actions[id].status == Approved && !ApprovalIsLate(t.actions[id], now)
    ensures var t1 := Started(t, lease, id, now); LifeOf(t1, id).Live? && LifeOf(t1, id).started == Some(now)
  {
    hide Inv, Own, Fold;
    RowFacts(t, id);
    ReceiptsHaveRows(t);
    var row := t.actions[id].(status := Executing, updatedAt := now, leaseExpiresAt := Some(now + lease));
    LivesAfterRecord(t, id, row, ExecutionStarted, now, RUNTIME, None);
  }

  lemma StartingIsLegal(t: Tables, lease: nat, id: string, now: nat)
    requires Inv(t) && id in t.actions && t.actions[id].status == Approved && !ApprovalIsLate(t.actions[id], now)
    ensures var row := t.actions[id].(status := Executing, updatedAt := now, leaseExpiresAt := Some(now + lease));
            && Legal(t, id, row, ExecutionStarted, now, RUNTIME, None)
            && KeepsHolding(t, id, row, ExecutionStarted, now, RUNTIME, None)
            && KeepsOutcome(t, id, row)
    ensures HoldsNothing(t.reservations, id)
  {
    hide Inv, Own, Fold, HoldsNothing;
    RowFacts(t, id);
  }

  lemma ReceiptsHaveRows(t: Tables)
    requires Inv(t)
    ensures forall r <- t.receipts :: r.actionId in t.actions
  {
  }

  lemma ClaimApprovedKeeps(t: Tables, lease: nat, id: string, now: nat)
    requires Inv(t) && id in t.actions && t.actions[id].status == Approved && !ApprovalIsLate(t.actions[id], now)
    ensures Inv(ClaimApproved(t, lease, id, now).tables) && Grows(t, ClaimApproved(t, lease, id, now).tables)
  {
    hide Inv, Grows, HoldsNothing, LifeOf, MatchingLimits, MatchingPause, Plan, BookAll, DistinctLimits, AppendReceipt, Legal;
    var row := t.actions[id];
    var tx := ClaimApproved(t, lease, id, now);
    var pause := MatchingPause(t.pauses, row);
    var plan := Plan(t, MatchingLimits(t.limits, row), id, row, now);
    if pause.Some? {
      NoteKeeps(t, id, PauseBlocked, now, Some(Encoded(PauseDetail(pause.value, t.pauses[pause.value].reason))));
    } else if plan.Raised? {
      NoteKeeps(t, id, LimitBlocked, now, Some(Encoded(BlockDetail(plan.error))));
    } else {
      StartedKeeps(t, lease, id, now);
      var t1 := Started(t, lease, id, now);
      PlanReads(t, t1, MatchingLimits(t.limits, row), id, row, now);
      PlanStarts(t1, id, row, plan.value, now);
      BookedKeeps(t1, id, row, plan.value, now);
      assert tx.tables == Booked(t1, plan.value);
      SameRowsGrow(t, t1, tx.tables);
    }
  }

  /** A plan reads only usage and limits. */
  lemma {:induction false} PlanReads(a: Tables, b: Tables, ids: seq<string>, id: string, row: Action, now: nat)
    requires a.usage == b.usage && a.limits == b.limits && forall i | 0 <= i < |ids| :: ids[i] in a.limits
    ensures Plan(a, ids, id, row, now) == Plan(b, ids, id, row, now)
  {
    if ids != [] {
      PlanReads(a, b, ids[..|ids| - 1], id, row, now);
    }
  }

  lemma PlanStarts(t: Tables, id: string, row: Action, plan: seq<Reservation>, now: nat)
    requires Plan(t, MatchingLimits(t.limits, row), id, row, now) == Returned(plan)
    requires id in t.actions && t.actions[id].status == Executing && LifeOf(t, id).Live? && LifeOf(t, id).started == Some(now)
    requires HoldsNothing(t.reservations, id)
    ensures StartPlan(t, id, plan, now)
  {
    hide Plan, MatchingLimits, LifeOf, HoldsNothing, FitsUnder, Requested;
    PlanFits(t, id, row, now);
    forall r | r in plan
      ensures r.actionId == id && r.releasedAt.None? && r.actions == 1 && r.bucket.limitId in t.limits
              && r.bucket.start == WindowStart(now, t.limits[r.bucket.limitId].window)
    {
      var i :| 0 <= i < |plan| && plan[i] == r;
    }
  }

  /** Once refreshed, an approval is in time. */
  lemma RefreshedIsInTime(t: Tables, id: string, now: nat)
    requires id in t.actions
    ensures !ApprovalIsLate(RefreshState(t, id, now).actions[id], now)
  {
  }

  lemma ClaimKeeps(t: Tables, lease: nat, id: string, digest: Digest, now: nat)
    requires Inv(t)
    ensures Inv(Claim(t, lease, id, digest, now).tables) && Grows(t, Claim(t, lease, id, digest, now).tables)
  {
    GrowsReflexive(t);
    hide Inv, Grows, RefreshState, ClaimApproved;
    if id in t.actions {
      var t1 := RefreshState(t, id, now);
      RefreshKeeps(t, id, now);
      RefreshedIsInTime(t, id, now);
      if t1.actions[id].status == Approved {
        ClaimApprovedKeeps(t1, lease, id, now);
        GrowsTransitive(t, t1, ClaimApproved(t1, lease, id, now).tables);
      } else if t1.actions[id].status == Succeeded {
        NoteKeeps(t1, id, ResultReplayed, now, None);
        GrowsTransitive(t, t1, Note(t1, id, t1.actions[id], ResultReplayed, now, None));
      }
    }
  }

  // ---------- reads and controls ----------

  lemma {:induction false} RefreshAllKeeps(t: Tables, ids: seq<string>, now: nat)
    requires Inv(t) && forall i | 0 <= i < |ids| :: ids[i] in t.actions
    ensures Inv(RefreshAll(t, ids, now)) && Grows(t, RefreshAll(t, ids, now))
  {
    GrowsReflexive(t);
    hide Inv, Grows, RefreshState;
    if ids != [] {
      var t1 := RefreshAll(t, ids[..|ids| - 1], now);
      RefreshAllKeeps(t, ids[..|ids| - 1], now);
      RefreshKeeps(t1, ids[|ids| - 1], now);
      GrowsTransitive(t, t1, RefreshState(t1, ids[|ids| - 1], now));
    }
  }

  /** A control receipt leaves rows, receipts and books as they were. */
  predicate OnlyControls(a: Tables, b: Tables) {
    a.actions == b.actions && a.index == b.index && a.receipts == b.receipts && a.usage == b.usage && a.reservations == b.reservations
  }

  lemma ControlsLeaveRows(a: Tables, b: Tables)
    requires SoundRows(a) && SoundIndex(a) && OnlyControls(a, b)
    ensures SoundRows(b) && SoundIndex(b)
  {
    hide Own, Fold, Matches;
    forall other | other in b.actions ensures SoundRow(b, other) {
      assert SoundRow(a, other);
    }
  }

  /** Limits may change as long as none disappears and windows stay. */
  lemma ControlsLeaveBooks(a: Tables, b: Tables)
    requires SoundBooks(a) && OnlyControls(a, b)
    requires forall id | id in a.limits :: id in b.limits && b.limits[id].window == a.limits[id].window
    ensures SoundBooks(b)
  {
    hide Own, Fold, Balanced, OncePerLimit;
    forall r | r in b.reservations ensures SoundReservation(b, r) {
      assert SoundReservation(a, r);
      assert r.releasedAt.None? ==> LifeOf(b, r.actionId) == LifeOf(a, r.actionId);
    }
  }

  /** A receipt that configures no limit moves no ceiling. */
  lemma OtherReceiptsKeepCeilings(controls: seq<ControlReceipt>, r: ControlReceipt, limitId: string)
    requires !Configures(r, limitId)
    ensures ValueCeiling(controls + [r], limitId) == ValueCeiling(controls, limitId)
    ensures ActionCeiling(controls + [r], limitId) == ActionCeiling(controls, limitId)
  {
    assert (controls + [r])[..|controls|] == controls;
  }

  lemma ConfigurationRaisesCeilings(controls: seq<ControlReceipt>, r: ControlReceipt, limitId: string, limit: Limit)
    requires Configures(r, limitId) && ConfiguredRow(r) == limit
    ensures LimitUnderCeilings(controls + [r], limitId, limit)
    ensures ValueCeiling(controls, limitId) <= ValueCeiling(controls + [r], limitId)
    ensures ValueCeiling(controls + [r], limitId) == Larger(ValueCeiling(controls, limitId), OrElse(limit.maxValue, 0))
    ensures ActionCeiling(controls + [r], limitId).Some? ==>
              ActionCeiling(controls, limitId).Some? && ActionCeiling(controls, limitId).value <= ActionCeiling(controls + [r], limitId).value
  {
    assert (controls + [r])[..|controls|] == controls;
  }

  lemma UnconfiguringKeepsCeilings(a: Tables, b: Tables, r: ControlReceipt)
    requires UnderCeilings(a) && OnlyControls(a, b) && b.controls == a.controls + [r] && r.event != LimitConfigured
    requires b.limits.Keys == a.limits.Keys
    requires forall id | id in b.limits :: b.limits[id].maxActions == a.limits[id].maxActions && b.limits[id].maxValue == a.limits[id].maxValue
    ensures UnderCeilings(b)
  {
    hide ValueCeiling, ActionCeiling;
    forall id
      ensures ValueCeiling(b.controls, id) == ValueCeiling(a.controls, id)
      ensures ActionCeiling(b.controls, id) == ActionCeiling(a.controls, id)
    {
      OtherReceiptsKeepCeilings(a.controls, r, id);
    }
    forall id | id in b.limits ensures LimitUnderCeilings(b.controls, id, b.limits[id]) {
      assert LimitUnderCeilings(a.controls, id, a.limits[id]);
    }
    forall bucket | bucket in b.usage ensures UsageUnderCeilings(b.controls, bucket.limitId, b.usage[bucket]) {
      assert UsageUnderCeilings(a.controls, bucket.limitId, a.usage[bucket]);
    }
  }

  lemma ConfiguringKeepsCeilings(a: Tables, b: Tables, r: ControlReceipt, limitId: string, limit: Limit)
    requires UnderCeilings(a) && OnlyControls(a, b) && b.controls == a.controls + [r]
    requires r.event == LimitConfigured && LimitIn(r) == Some(limitId) && ConfiguredRow(r) == limit
    requires b.limits == a.limits[limitId := limit] && (limit.maxValue.Some? ==> limit.maxValue.value <= MAX_SQL_INTEGER)
    ensures UnderCeilings(b)
  {
    hide ValueCeiling, ActionCeiling, ConfiguredRow, LimitIn;
    ConfigurationRaisesCeilings(a.controls, r, limitId, limit);
    forall id | id != limitId
      ensures ValueCeiling(b.controls, id) == ValueCeiling(a.controls, id) && ActionCeiling(b.controls, id) == ActionCeiling(a.controls, id)
    {
      OtherReceiptsKeepCeilings(a.controls, r, id);
    }
    forall id | id in b.limits ensures LimitUnderCeilings(b.controls, id, b.limits[id]) {
      assert id != limitId ==> LimitUnderCeilings(a.controls, id, a.limits[id]);
    }
    forall bucket | bucket in b.usage ensures UsageUnderCeilings(b.controls, bucket.limitId, b.usage[bucket]) {
      assert UsageUnderCeilings(a.controls, bucket.limitId, a.usage[bucket]);
    }
    forall id ensures ValueCeiling(b.controls, id) <= MAX_SQL_INTEGER {
      assert ValueCeiling(a.controls, id) <= MAX_SQL_INTEGER;
    }
  }

  lemma ControlOnlyKeeps(a: Tables, b: Tables)
    requires Inv(a) && OnlyControls(a, b)
    requires forall id | id in a.limits :: id in b.limits && b.limits[id].window == a.limits[id].window
    requires UnderCeilings(b) && ControlsReplayed(b) && ControlsLinked(b.controls) && a.controls <= b.controls
    ensures Inv(b) && Grows(a, b)
  {
    hide SoundRows, SoundIndex, SoundBooks, UnderCeilings, ControlsReplayed, ControlsLinked, WellLinked;
    ControlsLeaveRows(a, b);
    ControlsLeaveBooks(a, b);
  }

  lemma PauseControlsKeep(a: Tables, b: Tables, r: ControlReceipt)
    requires Inv(a) && OnlyControls(a, b) && b.limits == a.limits && b.controls == a.controls + [r]
    requires r.event != LimitConfigured && ControlsReplayed(b) && ControlsLinked(b.controls)
    ensures Inv(b) && Grows(a, b)
  {
    UnconfiguringKeepsCeilings(a, b, r);
    hide Inv, Grows, UnderCeilings, ControlsReplayed, ControlsLinked;
    ControlOnlyKeeps(a, b);
  }

  lemma SetPauseKeeps(t: Tables, actor: string, reason: string, namespace: Option<string>, tool: Option<string>, now: nat)
    requires Inv(t)
    ensures Inv(SetPause(t, actor, reason, namespace, tool, now).tables) && Grows(t, SetPause(t, actor, reason, namespace, tool, now).tables)
  {
    GrowsReflexive(t);
    var tx := SetPause(t, actor, reason, namespace, tool, now);
    if tx.reply.Returned? {
      var scope := ScopeJson(ScopeOf(namespace, tool));
      ControlFacts(t);
      SetPauseReplayed(t, actor, reason, namespace, tool, now);
      AppendKeepsControlLinks(t.controls, PauseSet, now, actor, scope, Raw(reason));
      hide Inv, Grows, ControlsReplayed, ControlsLinked;
      PauseControlsKeep(t, tx.tables, tx.tables.controls[|t.controls|]);
    }
  }

  lemma ClearPauseKeeps(t: Tables, actor: string, reason: string, namespace: Option<string>, tool: Option<string>,
                        now: nat)
    requires Inv(t)
    ensures Inv(ClearPause(t, actor, reason, namespace, tool, now).tables) && Grows(t, ClearPause(t, actor, reason, namespace, tool, now).tables)
  {
    GrowsReflexive(t);
    var tx := ClearPause(t, actor, reason, namespace, tool, now);
    if tx.reply == Returned(true) {
      var scope := ScopeJson(ScopeOf(namespace, tool));
      ControlFacts(t);
      ClearPauseReplayed(t, actor, reason, namespace, tool, now);
      AppendKeepsControlLinks(t.controls, PauseCleared, now, actor, scope, Raw(reason));
      hide Inv, Grows, ControlsReplayed, ControlsLinked;
      PauseControlsKeep(t, tx.tables, tx.tables.controls[|t.controls|]);
    }
  }

  lemma ControlFacts(t: Tables)
    requires Inv(t)
    ensures ControlsReplayed(t) && ControlsLinked(t.controls) && UnderCeilings(t)
  {
  }

  lemma ConfigureKeeps(t: Tables, limitId: string, spec: LimitSpec, actor: string, reason: string, now: nat)
    requires Inv(t)
    ensures Inv(ConfigureLimit(t, limitId, spec, actor, reason, now).tables)
    ensures Grows(t, ConfigureLimit(t, limitId, spec, actor, reason, now).tables)
  {
    GrowsReflexive(t);
    hide Inv, Grows, ControlsReplayed, ControlsLinked, UnderCeilings, ConfiguredRow, LimitIn;
    var tx := ConfigureLimit(t, limitId, spec, actor, reason, now);
    if tx.reply.Returned? {
      var limit := tx.reply.value;
      var r := tx.tables.controls[|t.controls|];
      ControlFacts(t);
      LimitRoundTrip(limitId, limit, r);
      ConfiguringKeepsCeilings(t, tx.tables, r, limitId, limit);
      ConfigureReplayed(t, limitId, spec, actor, reason, now);
      AppendKeepsControlLinks(t.controls, LimitConfigured, now, actor, ScopeJson(limit.scope), Encoded(LimitDetail(limitId, limit)));
      ControlOnlyKeeps(t, tx.tables);
    }
  }

  lemma DisableKeeps(t: Tables, limitId: string, actor: string, reason: string, now: nat)
    requires Inv(t)
    ensures Inv(DisableLimit(t, limitId, actor, reason, now).tables) && Grows(t, DisableLimit(t, limitId, actor, reason, now).tables)
  {
    GrowsReflexive(t);
    hide Inv, Grows, ControlsReplayed, ControlsLinked, UnderCeilings;
    var tx := DisableLimit(t, limitId, actor, reason, now);
    if tx.tables != t {
      var r := tx.tables.controls[|t.controls|];
      ControlFacts(t);
      UnconfiguringKeepsCeilings(t, tx.tables, r);
      DisableReplayed(t, limitId, actor, reason, now);
      AppendKeepsControlLinks(t.controls, r.event, now, actor, r.scope, r.detail);
      ControlOnlyKeeps(t, tx.tables);
    }
  }

  // ---------- runs ----------

  lemma ApplyKeeps(t: Tables, lease: nat, op: Runs.Op)
    requires Inv(t)
    ensures Inv(Runs.Apply(t, lease, op)) && Grows(t, Runs.Apply(t, lease, op))
  {
    hide Inv, Grows, RefreshState;
    hide Submit, Decide, DecideAuthorized, SetPause, ClearPause, ConfigureLimit, DisableLimit, Claim, Complete, MarkUnknown, Reconcile;
    match op
    case Submit(request, policy, now) => SubmitKeeps(t, request, policy, now);
    case Decide(id, decision, actor, note, now) => DecideKeeps(t, id, decision, actor, note, now);
    case DecideAuthorized(id, decision, auth, note, now) => DecideAuthorizedKeeps(t, id, decision, auth, note, now);
    case SetPause(actor, reason, namespace, tool, now) => SetPauseKeeps(t, actor, reason, namespace, tool, now);
    case ClearPause(actor, reason, namespace, tool, now) => ClearPauseKeeps(t, actor, reason, namespace, tool, now);
    case ConfigureLimit(limitId, spec, actor, reason, now) => ConfigureKeeps(t, limitId, spec, actor, reason, now);
    case DisableLimit(limitId, actor, reason, now) => DisableKeeps(t, limitId, actor, reason, now);
    case Claim(id, digest, now) => ClaimKeeps(t, lease, id, digest, now);
    case Complete(id, digest, result, now) => CompleteKeeps(t, id, digest, result, now);
    case MarkUnknown(id, digest, error, now) => MarkUnknownKeeps(t, id, digest, error, now);
    case Reconcile(id, outcome, actor, reason, result, now) => ReconcileKeeps(t, id, outcome, actor, reason, result, now);
    case GetAction(id, now) =>
      GrowsReflexive(t);
      if id in t.actions { RefreshKeeps(t, id, now); }
    case ListActions(status, now) => RefreshAllKeeps(t, CreationOrder(t.actions), now);
  }

  /** Every reachable database satisfies the invariant. */
  lemma {:induction false} RunKeeps(lease: nat, ops: seq<Runs.Op>)
    ensures Inv(Runs.Run(lease, ops))
  {
    if ops == [] {
      EmptyInv();
    } else {
      RunKeeps(lease, ops[..|ops| - 1]);
      ApplyKeeps(Runs.Run(lease, ops[..|ops| - 1]), lease, ops[|ops| - 1]);
    }
  }

  lemma EmptyInv()
    ensures Inv(EMPTY_TABLES)
  {
  }

  /** A longer run only adds to a shorter one. */
  lemma {:induction false} RunGrows(lease: nat, ops: seq<Runs.Op>, n: nat)
    requires n <= |ops|
    ensures Grows(Runs.Run(lease, ops[..n]), Runs.Run(lease, ops))
  {
    hide Inv, Grows;
    if n == |ops| {
      assert ops[..n] == ops;
      GrowsReflexive(Runs.Run(lease, ops));
    } else {
      var shorter := ops[..|ops| - 1];
      assert shorter[..n] == ops[..n];
      RunGrows(lease, shorter, n);
      RunKeeps(lease, shorter);
      ApplyKeeps(Runs.Run(lease, shorter), lease, ops[|ops| - 1]);
      GrowsTransitive(Runs.Run(lease, ops[..n]), Runs.Run(lease, shorter), Runs.Run(lease, ops));
    }
  }
}
