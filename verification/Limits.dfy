/** Limit accounting: usage rows against reservations, and the ceilings configured over time. */
module Limits {
  import opened Basics
  import opened JsonValues
  import opened RuntimeModels
  import opened Transactions
  import opened Lifecycle
  import opened Controls
  import TableOrder

  predicate Open(r: Reservation, bucket: Bucket) {
    r.bucket == bucket && r.releasedAt.None?
  }

  /** Actions and value held by the open reservations of a bucket. */
  function OpenUsage(reservations: seq<Reservation>, bucket: Bucket): (u: Usage)
    ensures u.actions >= 0 && u.value >= 0
  {
    if reservations == [] then Usage(0, 0)
    else
      var u := OpenUsage(reservations[..|reservations| - 1], bucket);
      var r := reservations[|reservations| - 1];
      if Open(r, bucket) then Usage(u.actions + r.actions, u.value + r.value) else u
  }

  /** The statuses in which an action keeps the capacity it reserved. */
  predicate Spent(status: Status) {
    status in {Executing, Unknown, Succeeded}
  }

  predicate HoldsNothing(reservations: seq<Reservation>, id: string) {
    forall r <- reservations :: !Held(r, id)
  }

  /** An open reservation belongs to an action that started in the reservation's window. */
  predicate SoundReservation(t: Tables, r: Reservation) {
    && r.bucket in t.usage && r.bucket.limitId in t.limits && r.actions == 1
    && (r.releasedAt.None? ==>
          && r.actionId in t.actions && Spent(t.actions[r.actionId].status)
          && LifeOf(t, r.actionId).Live? && LifeOf(t, r.actionId).started.Some?
          && r.bucket.start == WindowStart(LifeOf(t, r.actionId).started.value, t.limits[r.bucket.limitId].window))
  }

  /** No action holds two open reservations with one limit. */
  predicate OncePerLimit(reservations: seq<Reservation>) {
    forall i, j | 0 <= i < j < |reservations| && reservations[i].releasedAt.None? && reservations[j].releasedAt.None? ::
      !(reservations[i].actionId == reservations[j].actionId && reservations[i].bucket.limitId == reservations[j].bucket.limitId)
  }

  predicate Balanced(books: Books) {
    && (forall bucket | bucket in books.usage :: books.usage[bucket] == OpenUsage(books.reservations, bucket))
    && (forall r <- books.reservations :: r.bucket in books.usage)
  }

  predicate SoundBooks(t: Tables) {
    && Balanced(Books(t.usage, t.reservations))
    && OncePerLimit(t.reservations)
    && (forall r <- t.reservations :: SoundReservation(t, r))
  }

  lemma UsageAppended(reservations: seq<Reservation>, r: Reservation, bucket: Bucket)
    ensures OpenUsage(reservations + [r], bucket) ==
      (var u := OpenUsage(reservations, bucket); if Open(r, bucket) then Usage(u.actions + r.actions, u.value + r.value) else u)
  {
    assert (reservations + [r])[..|reservations|] == reservations;
  }

  /** Closing one reservation takes exactly its share out of its own bucket. */
  lemma {:induction false} UsageReleased(reservations: seq<Reservation>, i: nat, now: nat, bucket: Bucket)
    requires i < |reservations| && reservations[i].releasedAt.None?
    ensures var r := reservations[i];
            var u := OpenUsage(reservations, bucket);
            OpenUsage(reservations[i := r.(releasedAt := Some(now))], bucket)
            == if r.bucket == bucket then Usage(u.actions - r.actions, u.value - r.value) else u
  {
    var n := |reservations| - 1;
    var closed := reservations[i := reservations[i].(releasedAt := Some(now))];
    if i < n {
      assert closed[..n] == reservations[..n][i := reservations[i].(releasedAt := Some(now))];
      UsageReleased(reservations[..n], i, now, bucket);
    } else {
      assert closed[..n] == reservations[..n];
    }
  }

  lemma BookKeepsBalance(books: Books, r: Reservation)
    requires Balanced(books) && r.releasedAt.None?
    requires r.bucket !in books.usage ==> OpenUsage(books.reservations, r.bucket) == Usage(0, 0)
    ensures Balanced(Book(books, r))
  {
    var after := Book(books, r);
    forall bucket | bucket in after.usage ensures after.usage[bucket] == OpenUsage(after.reservations, bucket) {
      UsageAppended(books.reservations, r, bucket);
      assert bucket != r.bucket ==> after.usage[bucket] == books.usage[bucket];
    }
  }

  /** A bucket without a usage row has no reservations. */
  lemma {:induction false} NoRowNoUsage(reservations: seq<Reservation>, bucket: Bucket)
    requires forall r <- reservations :: r.bucket != bucket
    ensures OpenUsage(reservations, bucket) == Usage(0, 0)
  {
    if reservations != [] {
      NoRowNoUsage(reservations[..|reservations| - 1], bucket);
    }
  }

  lemma {:induction false} BookAllKeepsBalance(books: Books, plan: seq<Reservation>)
    requires Balanced(books) && forall r <- plan :: r.releasedAt.None?
    ensures Balanced(BookAll(books, plan))
    ensures BookAll(books, plan).reservations == books.reservations + plan
    ensures forall bucket :: bucket in BookAll(books, plan).usage <==> bucket in books.usage || exists r <- plan :: r.bucket == bucket
  {
    if plan != [] {
      var n := |plan| - 1;
      var before := BookAll(books, plan[..n]);
      BookAllKeepsBalance(books, plan[..n]);
      if plan[n].bucket !in before.usage {
        NoRowNoUsage(before.reservations, plan[n].bucket);
      }
      BookKeepsBalance(before, plan[n]);
      assert plan == plan[..n] + [plan[n]];
    }
  }

  lemma ReleaseOneKeepsBalance(books: Books, i: nat, now: nat)
    requires i < |books.reservations| && books.reservations[i].releasedAt.None? && Balanced(books)
    ensures Balanced(ReleaseOne(books, i, now))
  {
    var after := ReleaseOne(books, i, now);
    forall bucket | bucket in after.usage ensures after.usage[bucket] == OpenUsage(after.reservations, bucket) {
      UsageReleased(books.reservations, i, now, bucket);
    }
  }

  /** Releasing an action closes all it held among the first `n` reservations, and touches no other. */
  lemma {:induction false} ReleaseCloses(books: Books, id: string, now: nat, n: nat)
    requires n <= |books.reservations|
    ensures forall i | 0 <= i < |books.reservations| ::
              Release(books, id, now, n).reservations[i]
              == if i < n && Held(books.reservations[i], id) then books.reservations[i].(releasedAt := Some(now)) else books.reservations[i]
  {
    if n > 0 {
      ReleaseCloses(books, id, now, n - 1);
    }
  }

  lemma {:induction false} ReleaseKeepsBalance(books: Books, id: string, now: nat, n: nat)
    requires n <= |books.reservations| && Balanced(books)
    ensures Balanced(Release(books, id, now, n)) && Release(books, id, now, n).usage.Keys == books.usage.Keys
  {
    if n > 0 {
      hide Balanced, OpenUsage;
      ReleaseKeepsBalance(books, id, now, n - 1);
      var before := Release(books, id, now, n - 1);
      if Held(before.reservations[n - 1], id) {
        ReleaseOneKeepsBalance(before, n - 1, now);
      }
    }
  }

  /** Releasing an action closes all it held, keeps the books balanced and touches nobody else's reservations. */
  lemma ReleaseEffect(books: Books, id: string, now: nat, n: nat)
    requires n <= |books.reservations| && Balanced(books)
    ensures var after := Release(books, id, now, n);
            && Balanced(after)
            && after.usage.Keys == books.usage.Keys
            && (forall i | 0 <= i < |books.reservations| ::
                  after.reservations[i] == if i < n && Held(books.reservations[i], id)
                                           then books.reservations[i].(releasedAt := Some(now)) else books.reservations[i])
  {
    hide *;
    ReleaseCloses(books, id, now, n);
    ReleaseKeepsBalance(books, id, now, n);
  }

  // ---------- the plan of a claim ----------

  /** The limits asked are exactly the enabled ones covering the row, each once. */
  lemma MatchingLimitsExact(limits: map<string, Limit>, row: Action)
    ensures forall id :: id in MatchingLimits(limits, row) <==> id in limits && limits[id].enabled && Covers(limits[id].scope, row)
    ensures forall i, j | 0 <= i < j < |MatchingLimits(limits, row)| :: MatchingLimits(limits, row)[i] != MatchingLimits(limits, row)[j]
  {
    var keys := TableOrder.Sorted(MatchingKeys(limits, row));
    var ids := MatchingLimits(limits, row);
    forall i, j | 0 <= i < j < |ids| ensures ids[i] != ids[j] {
      assert keys[i] in MatchingKeys(limits, row) && keys[j] in MatchingKeys(limits, row);
      assert TableOrder.Before(keys[i], keys[j]);
      TableOrder.TextLessIsTotal(ids[i], ids[j]);
    }
    forall id ensures id in ids <==> id in limits && limits[id].enabled && Covers(limits[id].scope, row) {
      if id in limits && limits[id].enabled && Covers(limits[id].scope, row) {
        assert TableOrder.Key(0, id) in keys;
      }
      if id in ids {
        var i :| 0 <= i < |ids| && ids[i] == id;
        assert keys[i] in MatchingKeys(limits, row);
      }
    }
  }

  /** An accepted plan holds each limit's own answer. */
  lemma {:induction false} PlanAnswers(t: Tables, ids: seq<string>, id: string, row: Action, now: nat)
    requires forall i | 0 <= i < |ids| :: ids[i] in t.limits
    requires Plan(t, ids, id, row, now).Returned?
    ensures var plan := Plan(t, ids, id, row, now).value;
            |plan| == |ids| && forall i | 0 <= i < |ids| :: Admit(t.usage, ids[i], t.limits[ids[i]], id, row, now) == Returned(plan[i])
  {
    if ids != [] {
      PlanAnswers(t, ids[..|ids| - 1], id, row, now);
    }
  }

  predicate DistinctLimits(plan: seq<Reservation>) {
    forall i, j | 0 <= i < j < |plan| :: plan[i].bucket.limitId != plan[j].bucket.limitId
  }

  predicate InPlan(plan: seq<Reservation>, bucket: Bucket) {
    exists r <- plan :: r.bucket == bucket
  }

  /** Booking a plan adds each reservation to its own bucket and changes no other. */
  lemma {:induction false} BookAllUsage(books: Books, plan: seq<Reservation>)
    requires DistinctLimits(plan)
    ensures forall i | 0 <= i < |plan| ::
              var used := UsedIn(books.usage, plan[i].bucket);
              UsedIn(BookAll(books, plan).usage, plan[i].bucket) == Usage(used.actions + plan[i].actions, used.value + plan[i].value)
    ensures forall bucket | !InPlan(plan, bucket) :: UsedIn(BookAll(books, plan).usage, bucket) == UsedIn(books.usage, bucket)
  {
    if plan != [] {
      var n := |plan| - 1;
      var r := plan[n];
      BookAllUsage(books, plan[..n]);
      var before, after := BookAll(books, plan[..n]).usage, BookAll(books, plan).usage;
      assert !InPlan(plan[..n], r.bucket);
      assert forall bucket | bucket != r.bucket :: UsedIn(after, bucket) == UsedIn(before, bucket);
      forall i | 0 <= i < |plan| ensures
          var used := UsedIn(books.usage, plan[i].bucket);
          UsedIn(after, plan[i].bucket) == Usage(used.actions + plan[i].actions, used.value + plan[i].value)
      {
        assert i < n ==> plan[..n][i] == plan[i] && plan[i].bucket != r.bucket;
      }
      forall bucket | !InPlan(plan, bucket) ensures UsedIn(after, bucket) == UsedIn(books.usage, bucket) {
        assert r in plan;
        assert !InPlan(plan[..n], bucket);
      }
    }
  }

  // ---------- ceilings over the history of configurations ----------

  /** The receipt configures limit `limitId`. */
  predicate Configures(r: ControlReceipt, limitId: string) {
    r.event == LimitConfigured && LimitIn(r) == Some(limitId)
  }

  function Larger(a: nat, b: nat): nat {
    if a >= b then a else b
  }

  /** The largest `max_value` ever configured; zero if the limit never priced anything. */
  function ValueCeiling(controls: seq<ControlReceipt>, limitId: string): nat {
    if controls == [] then 0
    else
      var earlier := ValueCeiling(controls[..|controls| - 1], limitId);
      var r := controls[|controls| - 1];
      if Configures(r, limitId) then Larger(earlier, OrElse(ConfiguredRow(r).maxValue, 0)) else earlier
  }

  /** The largest `max_actions` ever configured, if every configuration set one. */
  function ActionCeiling(controls: seq<ControlReceipt>, limitId: string): Option<nat> {
    if controls == [] then Some(0)
    else
      var earlier := ActionCeiling(controls[..|controls| - 1], limitId);
      var r := controls[|controls| - 1];
      if !Configures(r, limitId) then earlier
      else if earlier.None? || ConfiguredRow(r).maxActions.None? then None
      else Some(Larger(earlier.value, ConfiguredRow(r).maxActions.value))
  }

  predicate LimitUnderCeilings(controls: seq<ControlReceipt>, limitId: string, limit: Limit) {
    && (limit.maxValue.Some? ==> limit.maxValue.value <= ValueCeiling(controls, limitId))
    && (ActionCeiling(controls, limitId).Some? ==>
          limit.maxActions.Some? && limit.maxActions.value <= ActionCeiling(controls, limitId).value)
  }

  predicate UsageUnderCeilings(controls: seq<ControlReceipt>, limitId: string, used: Usage) {
    && used.value <= ValueCeiling(controls, limitId)
    && (ActionCeiling(controls, limitId).Some? ==> used.actions <= ActionCeiling(controls, limitId).value)
  }

  ghost predicate UnderCeilings(t: Tables) {
    && (forall id | id in t.limits :: LimitUnderCeilings(t.controls, id, t.limits[id]))
    && (forall bucket | bucket in t.usage :: UsageUnderCeilings(t.controls, bucket.limitId, t.usage[bucket]))
    && (forall id :: ValueCeiling(t.controls, id) <= MAX_SQL_INTEGER)
  }
}
