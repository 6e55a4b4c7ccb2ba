/**
 * The laws of claiming: exactly when an execution starts, what it reserves, and what every other claim answers. Costs
 * are what the arguments hold at a limit's path.
 */
module ClaimLaws {
  import opened Basics
  import opened JsonValues
  import opened PathValues
  import opened RuntimeModels
  import opened Transactions
  import opened Controls
  import opened Limits
  import opened StoreInvariant
  import TransactionLaws
  import TableOrder

  // ---------- costs ----------

  /** What a start of this row costs under a limit: nothing, or the integer its arguments hold at the limit's path. */
  ghost predicate Costs(row: Action, limit: Limit, n: int) {
    match limit.valueArgument
    case None => n == 0
    case Some(path) => Holds(row.arguments, path, n)
  }

  lemma CostIsRequested(row: Action, limit: Limit)
    ensures Requested(row, limit).Some? ==> Costs(row, limit, Requested(row, limit).value)
    ensures forall n | Costs(row, limit, n) :: Requested(row, limit) == Some(n)
  {
    if limit.valueArgument.Some? {
      var path := limit.valueArgument.value;
      if Requested(row, limit).Some? {
        ExtractionReads(row.arguments, path, Requested(row, limit).value);
      }
      forall n | Costs(row, limit, n) ensures Requested(row, limit) == Some(n) {
        ExtractionReads(row.arguments, path, n);
      }
    }
  }

  // ---------- what a claim reserves ----------

  /** The limits that speak for a row at a claim. */
  predicate Speaks(t: Tables, limitId: string, row: Action) {
    limitId in t.limits && t.limits[limitId].enabled && Covers(t.limits[limitId].scope, row)
  }

  function BucketAt(t: Tables, limitId: string, now: nat): Bucket
    requires limitId in t.limits
  {
    Bucket(limitId, WindowStart(now, t.limits[limitId].window))
  }

  /** Refreshing a row leaves books, limits and pauses alone and never makes it claimable. */
  lemma RefreshLeavesBooks(t: Tables, id: string, now: nat)
    requires id in t.actions
    ensures var t1 := RefreshState(t, id, now);
            && t1.usage == t.usage && t1.reservations == t.reservations && t1.limits == t.limits && t1.pauses == t.pauses
            && t1.controls == t.controls && t1.actions.Keys == t.actions.Keys
            && (t1.actions[id].status == Approved ==> t1.actions[id] == t.actions[id])
  {
  }

  /** What a claim does to the books: a granted one books its plan, any other leaves them. */
  lemma ClaimBooks(t: Tables, lease: nat, id: string, digest: Digest, now: nat)
    ensures var tx := Claim(t, lease, id, digest, now);
            if tx.reply.Returned? && tx.reply.value.Execute? then
              && id in t.actions
              && (var plan := Plan(t, MatchingLimits(t.limits, t.actions[id]), id, t.actions[id], now);
                  && plan.Returned?
                  && Books(tx.tables.usage, tx.tables.reservations) == BookAll(Books(t.usage, t.reservations), plan.value))
            else tx.tables.usage == t.usage && tx.tables.reservations == t.reservations
  {
    if id in t.actions {
      RefreshLeavesBooks(t, id, now);
      var t1 := RefreshState(t, id, now);
      hide RefreshState, Plan, MatchingLimits, MatchingPause, BookAll, AppendReceipt, PauseDetail, BlockDetail, ClaimRefusal;
      if t1.actions[id].status == Approved {
        PlanReads(t, t1, MatchingLimits(t.limits, t.actions[id]), id, t.actions[id], now);
      }
    }
  }

  /**
   * A granted claim reserves on every limit that speaks for the action, once each, exactly its own cost;
   * any other claim reserves nothing.
   */
  lemma ClaimReservesAllOrNone(t: Tables, lease: nat, id: string, digest: Digest, now: nat)
    ensures var tx := Claim(t, lease, id, digest, now);
            if tx.reply.Returned? && tx.reply.value.Execute? then
              && id in t.actions && t.reservations <= tx.tables.reservations
              && ReservesAll(t, id, tx.tables.reservations[|t.reservations|..], now)
            else tx.tables.usage == t.usage && tx.tables.reservations == t.reservations
  {
    ClaimBooks(t, lease, id, digest, now);
    var tx := Claim(t, lease, id, digest, now);
    hide Claim, Plan, MatchingLimits, BookAll, ReservesAll;
    if tx.reply.Returned? && tx.reply.value.Execute? {
      var plan := Plan(t, MatchingLimits(t.limits, t.actions[id]), id, t.actions[id], now).value;
      PlanReservesAll(t, id, plan, now);
      BookAllAppends(Books(t.usage, t.reservations), plan);
      assert tx.tables.reservations[|t.reservations|..] == plan;
    }
  }

  /** One reservation of the action's own cost for each limit that speaks for it, and no other. */
  ghost predicate ReservesAll(t: Tables, id: string, added: seq<Reservation>, now: nat)
    requires id in t.actions
  {
    var row := t.actions[id];
    && (forall limitId :: Speaks(t, limitId, row) <==> exists r <- added :: r.bucket.limitId == limitId)
    && DistinctLimits(added)
    && (forall r <- added ::
          && Speaks(t, r.bucket.limitId, row) && Costs(row, t.limits[r.bucket.limitId], r.value)
          && r.actionId == id && r.bucket == BucketAt(t, r.bucket.limitId, now) && r.actions == 1 && r.releasedAt == None)
  }

  lemma PlanReservesAll(t: Tables, id: string, plan: seq<Reservation>, now: nat)
    requires id in t.actions && Plan(t, MatchingLimits(t.limits, t.actions[id]), id, t.actions[id], now) == Returned(plan)
    ensures ReservesAll(t, id, plan, now)
  {
    var row := t.actions[id];
    hide Plan, MatchingLimits, Requested, Costs, Speaks, DistinctLimits, FitsUnder;
    PlanFits(t, id, row, now);
    forall limitId ensures Speaks(t, limitId, row) <==> exists r <- plan :: r.bucket.limitId == limitId {
      PlanAsksAll(t, id, plan, now, limitId);
    }
    forall r | r in plan
      ensures Speaks(t, r.bucket.limitId, row) && Costs(row, t.limits[r.bucket.limitId], r.value)
      ensures r.actionId == id && r.bucket == BucketAt(t, r.bucket.limitId, now) && r.actions == 1 && r.releasedAt == None
    {
      PlanAsksAll(t, id, plan, now, r.bucket.limitId);
      CostIsRequested(row, t.limits[r.bucket.limitId]);
      var i :| 0 <= i < |plan| && plan[i] == r;
    }
  }

  lemma PlanAsksAll(t: Tables, id: string, plan: seq<Reservation>, now: nat, limitId: string)
    requires id in t.actions && Plan(t, MatchingLimits(t.limits, t.actions[id]), id, t.actions[id], now) == Returned(plan)
    ensures Speaks(t, limitId, t.actions[id]) <==> exists r <- plan :: r.bucket.limitId == limitId
  {
    var row := t.actions[id];
    var ids := MatchingLimits(t.limits, row);
    MatchingLimitsExact(t.limits, row);
    hide Plan, MatchingLimits, Requested, Covers, DistinctLimits, FitsUnder;
    PlanFits(t, id, row, now);
    if Speaks(t, limitId, row) {
      var i :| 0 <= i < |ids| && ids[i] == limitId;
      assert plan[i] in plan;
    }
    if r :| r in plan && r.bucket.limitId == limitId {
      var i :| 0 <= i < |plan| && plan[i] == r;
      assert ids[i] in ids;
    }
  }

  lemma {:induction false} BookAllAppends(books: Books, plan: seq<Reservation>)
    ensures BookAll(books, plan).reservations == books.reservations + plan
  {
    if plan != [] {
      BookAllAppends(books, plan[..|plan| - 1]);
      assert plan == plan[..|plan| - 1] + [plan[|plan| - 1]];
    }
  }

  /** What a limit holds after a reservation of the row's cost: within both maxima. */
  ghost predicate WithinLimit(t: Tables, limitId: string, row: Action, before: Usage, after: Usage)
    requires limitId in t.limits
  {
    var limit := t.limits[limitId];
    && after.actions == before.actions + 1 && Costs(row, limit, after.value - before.value)
    && (limit.maxActions.Some? ==> after.actions <= limit.maxActions.value)
    && (limit.maxValue.Some? ==> after.value <= limit.maxValue.value)
  }

  /** The reservation an accepted plan makes with one limit. */
  lemma PlanEntry(t: Tables, id: string, plan: seq<Reservation>, now: nat, limitId: string) returns (i: nat)
    requires id in t.actions && Plan(t, MatchingLimits(t.limits, t.actions[id]), id, t.actions[id], now) == Returned(plan)
    requires Speaks(t, limitId, t.actions[id])
    ensures DistinctLimits(plan) && i < |plan| && Costs(t.actions[id], t.limits[limitId], plan[i].value)
    ensures plan[i].bucket == BucketAt(t, limitId, now) && plan[i].actions == 1
    ensures FitsUnder(t.limits[limitId], UsedIn(t.usage, BucketAt(t, limitId, now)), plan[i])
  {
    var ids := MatchingLimits(t.limits, t.actions[id]);
    CostIsRequested(t.actions[id], t.limits[limitId]);
    hide Plan, MatchingLimits, Requested, Costs, Covers, DistinctLimits, UsedIn, FitsUnder;
    MatchingLimitsExact(t.limits, t.actions[id]);
    assert limitId in ids;
    i :| 0 <= i < |ids| && ids[i] == limitId;
    PlanFits(t, id, t.actions[id], now);
  }

  lemma PlanStaysWithinLimits(t: Tables, id: string, plan: seq<Reservation>, now: nat, limitId: string)
    requires id in t.actions && Plan(t, MatchingLimits(t.limits, t.actions[id]), id, t.actions[id], now) == Returned(plan)
    requires Speaks(t, limitId, t.actions[id])
    ensures WithinLimit(t, limitId, t.actions[id], UsedIn(t.usage, BucketAt(t, limitId, now)),
                        UsedIn(BookAll(Books(t.usage, t.reservations), plan).usage, BucketAt(t, limitId, now)))
  {
    hide Plan, MatchingLimits, BookAll, Costs, Covers, InPlan, DistinctLimits, WindowStart, UsedIn;
    var i := PlanEntry(t, id, plan, now, limitId);
    BookAllUsage(Books(t.usage, t.reservations), plan);
    assert plan[i].bucket == BucketAt(t, limitId, now);
  }

  /** After a granted claim every limit that speaks for the action is at or under its maxima. */
  lemma ClaimStaysWithinLimits(t: Tables, lease: nat, id: string, digest: Digest, now: nat, limitId: string)
    requires var tx := Claim(t, lease, id, digest, now);
             tx.reply.Returned? && tx.reply.value.Execute? && id in t.actions && Speaks(t, limitId, t.actions[id])
    ensures WithinLimit(t, limitId, t.actions[id], UsedIn(t.usage, BucketAt(t, limitId, now)),
                        UsedIn(Claim(t, lease, id, digest, now).tables.usage, BucketAt(t, limitId, now)))
  {
    ClaimBooks(t, lease, id, digest, now);
    hide Claim, Plan, MatchingLimits, BookAll, WithinLimit, Covers;
    PlanStaysWithinLimits(t, id, Plan(t, MatchingLimits(t.limits, t.actions[id]), id, t.actions[id], now).value, now, limitId);
  }

  /** The row has a price under the limit, and one more such start stays within both maxima. */
  ghost predicate HasRoom(t: Tables, limitId: string, row: Action, now: nat)
    requires limitId in t.limits
  {
    var limit := t.limits[limitId];
    var used := UsedIn(t.usage, BucketAt(t, limitId, now));
    && (limit.maxActions.Some? ==> used.actions + 1 <= limit.maxActions.value)
    && exists n :: Costs(row, limit, n) && (limit.maxValue.Some? ==> used.value + n <= limit.maxValue.value)
  }

  lemma {:induction false} PlanAcceptsExactly(t: Tables, ids: seq<string>, id: string, row: Action, now: nat)
    requires forall i | 0 <= i < |ids| :: ids[i] in t.limits
    ensures Plan(t, ids, id, row, now).Returned? <==> forall limitId <- ids :: HasRoom(t, limitId, row, now)
  {
    if ids == [] {
      assert Plan(t, [], id, row, now).Returned?;
    } else {
      var n := |ids| - 1;
      PlanAcceptsExactly(t, ids[..n], id, row, now);
      AdmitsExactly(t, ids[n], id, row, now);
      assert ids == ids[..n] + [ids[n]];
      hide Admit, HasRoom;
    }
  }

  lemma AdmitsExactly(t: Tables, limitId: string, id: string, row: Action, now: nat)
    requires limitId in t.limits
    ensures Admit(t.usage, limitId, t.limits[limitId], id, row, now).Returned? <==> HasRoom(t, limitId, row, now)
  {
    CostIsRequested(row, t.limits[limitId]);
    hide Requested, Costs, WindowStart;
  }

  /** An approved row of this digest, not lapsed, that no pause covers and for which every limit that speaks has room. */
  ghost predicate Claimable(t: Tables, id: string, digest: Digest, now: nat) {
    id in t.actions
    && var row := t.actions[id];
       && row.digest == digest && row.status == Approved && (row.expiresAt.Some? ==> now < row.expiresAt.value)
       && (forall scope | scope in t.pauses :: !Covers(scope, row))
       && (forall limitId | Speaks(t, limitId, row) :: HasRoom(t, limitId, row, now))
  }

  /** A claim is granted exactly where nothing stands against it. */
  lemma ClaimGrantedExactly(t: Tables, lease: nat, id: string, digest: Digest, now: nat)
    ensures (Claim(t, lease, id, digest, now).reply.Returned? && Claim(t, lease, id, digest, now).reply.value.Execute?)
       <==> Claimable(t, id, digest, now)
  {
    if id in t.actions {
      var row := t.actions[id];
      ApprovedNeedsNoRefresh(t, id, now);
      MatchIsNarrowest(t.pauses, row);
      MatchingLimitsExact(t.limits, row);
      PlanAcceptsExactly(t, MatchingLimits(t.limits, row), id, row, now);
      RefreshTellsLapse(t, id, now);
      hide RefreshState, MatchingPause, MatchingLimits, Plan, HasRoom, Covers, BookAll, AppendReceipt, PauseDetail, BlockDetail, Note, Record;
    }
  }

  lemma RefreshTellsLapse(t: Tables, id: string, now: nat)
    requires id in t.actions
    ensures var row := RefreshState(t, id, now).actions[id];
            && row.digest == t.actions[id].digest
            && (row.status == Approved
                <==> t.actions[id].status == Approved && (t.actions[id].expiresAt.Some? ==> now < t.actions[id].expiresAt.value))
  {
    hide AppendReceipt;
  }

  // ---------- which limit refuses ----------

  /** The limit's own complaint about a row it has no room for. */
  ghost predicate Complains(t: Tables, limitId: string, row: Action, now: nat, error: Error)
    requires limitId in t.limits
  {
    var limit := t.limits[limitId];
    var used := UsedIn(t.usage, BucketAt(t, limitId, now));
    if !exists n :: Costs(row, limit, n) then
      limit.valueArgument.Some? && error == LimitValueInvalid(row, limitId, limit.valueArgument.value)
    else if limit.maxActions.Some? && used.actions + 1 > limit.maxActions.value then
      error == LimitExceeded(row, limitId, "actions", used.actions, 1, limit.maxActions.value)
    else
      exists n :: Costs(row, limit, n) && limit.maxValue.Some? && limit.valueArgument.Some?
                  && used.value + n > limit.maxValue.value
                  && error == LimitExceeded(row, limitId, limit.valueArgument.value, used.value, n, limit.maxValue.value)
  }

  /** No limit that speaks for the row comes before this one by id and lacks room. */
  ghost predicate FirstFull(t: Tables, limitId: string, row: Action, now: nat) {
    && Speaks(t, limitId, row) && !HasRoom(t, limitId, row, now)
    && forall other | Speaks(t, other, row) && TableOrder.TextLess(other, limitId) :: HasRoom(t, other, row, now)
  }

  lemma AdmissionComplains(t: Tables, limitId: string, id: string, row: Action, now: nat)
    requires limitId in t.limits && Admit(t.usage, limitId, t.limits[limitId], id, row, now).Raised?
    ensures Complains(t, limitId, row, now, Admit(t.usage, limitId, t.limits[limitId], id, row, now).error)
  {
    CostIsRequested(row, t.limits[limitId]);
    hide Requested, Costs, WindowStart;
  }

  lemma {:induction false} PlanStopsAtFirst(t: Tables, ids: seq<string>, id: string, row: Action, now: nat) returns (i: nat)
    requires (forall i | 0 <= i < |ids| :: ids[i] in t.limits) && Plan(t, ids, id, row, now).Raised?
    ensures i < |ids| && !HasRoom(t, ids[i], row, now) && Complains(t, ids[i], row, now, Plan(t, ids, id, row, now).error)
    ensures forall j | 0 <= j < i :: HasRoom(t, ids[j], row, now)
  {
    var n := |ids| - 1;
    if Plan(t, ids[..n], id, row, now).Raised? {
      i := PlanStopsAtFirst(t, ids[..n], id, row, now);
    } else {
      i := n;
      PlanAcceptsExactly(t, ids[..n], id, row, now);
      AdmitsExactly(t, ids[n], id, row, now);
      AdmissionComplains(t, ids[n], id, row, now);
      hide HasRoom, Complains, Admit;
      forall j | 0 <= j < n ensures HasRoom(t, ids[j], row, now) {
        assert ids[j] in ids[..n];
      }
    }
  }

  lemma LimitsAreAskedInOrder(limits: map<string, Limit>, row: Action)
    ensures var ids := MatchingLimits(limits, row); forall i, j | 0 <= i < j < |ids| :: TableOrder.TextLess(ids[i], ids[j])
  {
    var keys := TableOrder.Sorted(MatchingKeys(limits, row));
    forall i, j | 0 <= i < j < |keys| ensures TableOrder.TextLess(keys[i].id, keys[j].id) {
      assert keys[i] in MatchingKeys(limits, row) && keys[j] in MatchingKeys(limits, row);
      assert TableOrder.Before(keys[i], keys[j]);
    }
  }

  /**
   * A claim that only the limits stand against is refused by the first of them, by id, that has no room, in that limit's
   * own words: the arguments hold no amount at its path, or one more start or this amount is too much.
   */
  lemma FirstFullLimitRefuses(t: Tables, lease: nat, id: string, now: nat)
    requires id in t.actions && t.actions[id].status == Approved
    requires t.actions[id].expiresAt.Some? ==> now < t.actions[id].expiresAt.value
    requires forall scope | scope in t.pauses :: !Covers(scope, t.actions[id])
    requires exists limitId :: Speaks(t, limitId, t.actions[id]) && !HasRoom(t, limitId, t.actions[id], now)
    ensures var reply := Claim(t, lease, id, t.actions[id].digest, now).reply;
            reply.Raised? && exists limitId :: FirstFull(t, limitId, t.actions[id], now) && Complains(t, limitId, t.actions[id], now, reply.error)
  {
    hide *;
    var row := t.actions[id];
    var ids := MatchingLimits(t.limits, row);
    MatchIsNarrowest(t.pauses, row);
    FullLimitsRefusePlans(t, id, row, now);
    ClaimOfUnpaused(t, lease, id, now);
    var i := PlanStopsAtFirst(t, ids, id, row, now);
    FirstOfPlan(t, row, now, i);
  }

  lemma FullLimitsRefusePlans(t: Tables, id: string, row: Action, now: nat)
    requires exists limitId :: Speaks(t, limitId, row) && !HasRoom(t, limitId, row, now)
    ensures Plan(t, MatchingLimits(t.limits, row), id, row, now).Raised?
  {
    MatchingLimitsExact(t.limits, row);
    PlanAcceptsExactly(t, MatchingLimits(t.limits, row), id, row, now);
    hide HasRoom, Covers, Plan, MatchingLimits;
  }

  lemma FirstOfPlan(t: Tables, row: Action, now: nat, i: nat)
    requires i < |MatchingLimits(t.limits, row)| && !HasRoom(t, MatchingLimits(t.limits, row)[i], row, now)
    requires forall j | 0 <= j < i :: HasRoom(t, MatchingLimits(t.limits, row)[j], row, now)
    ensures FirstFull(t, MatchingLimits(t.limits, row)[i], row, now)
  {
    var ids := MatchingLimits(t.limits, row);
    MatchingLimitsExact(t.limits, row);
    LimitsAreAskedInOrder(t.limits, row);
    hide HasRoom, Covers, MatchingLimits, TableOrder.TextLess;
    assert ids[i] in ids;
    forall other | Speaks(t, other, row) && TableOrder.TextLess(other, ids[i]) ensures HasRoom(t, other, row, now) {
      var j :| 0 <= j < |ids| && ids[j] == other;
      TableOrder.TextLessIsTotal(other, ids[i]);
    }
  }

  lemma ClaimOfUnpaused(t: Tables, lease: nat, id: string, now: nat)
    requires id in t.actions && t.actions[id].status == Approved && MatchingPause(t.pauses, t.actions[id]).None?
    requires t.actions[id].expiresAt.Some? ==> now < t.actions[id].expiresAt.value
    ensures var plan := Plan(t, MatchingLimits(t.limits, t.actions[id]), id, t.actions[id], now);
            plan.Raised? ==> Claim(t, lease, id, t.actions[id].digest, now).reply == Raised(plan.error)
  {
    RefreshTellsLapse(t, id, now);
    ApprovedNeedsNoRefresh(t, id, now);
    hide RefreshState, Plan, MatchingLimits, MatchingPause;
  }

  // ---------- every other claim ----------

  /** A claim on a succeeded action replays its result, and leaves only a receipt. */
  lemma SucceededReplays(t: Tables, lease: nat, id: string, now: nat)
    requires id in t.actions && t.actions[id].status == Succeeded
    ensures var tx := Claim(t, lease, id, t.actions[id].digest, now);
            && tx.reply == Returned(Replay(t.actions[id], match t.actions[id].result case None => Null case Some(json) => json))
            && tx.tables == t.(receipts := tx.tables.receipts)
            && TransactionLaws.OneReceipt(t, tx.tables, id, ResultReplayed, now, Some("runtime"), None)
  {
  }

  /** What a claim answers on a row that reads as neither approved nor succeeded; it changes nothing. */
  lemma OthersAreRefused(t: Tables, lease: nat, id: string, digest: Digest, now: nat)
    ensures var tx := Claim(t, lease, id, digest, now);
            && (id !in t.actions ==> tx == Tx(t, Raised(UnknownId(id))))
            && (id in t.actions && t.actions[id].digest != digest ==> tx == Tx(t, Raised(BindingMismatch)))
            && (id in t.actions && t.actions[id].digest == digest ==>
                  var error := if tx.reply.Raised? then tx.reply.error else InvalidValue;
                  match TransactionLaws.SeenStatus(t.actions[id], now)
                  case Pending => error.NeedsApproval? && tx.tables == t
                  case Denied => error.DeniedByPolicy? && tx.tables == t
                  case Rejected => error.RejectedByReviewer? && tx.tables == t
                  case Expired => error.ApprovalExpired? && tx.tables == t
                  case Executing => error.InProgress? && tx.tables == t
                  case Unknown => error.OutcomeUnknown? && tx.tables == t
                  case _ => true)
  {
    if id in t.actions {
      TransactionLaws.RefreshIsARead(t, id, now);
      hide RefreshState, ClaimApproved, AppendReceipt;
    }
  }

  /** A granted claim leaves the row executing under a fresh lease, with its receipt. */
  lemma GrantedClaimStarts(t: Tables, lease: nat, id: string, digest: Digest, now: nat)
    requires Claim(t, lease, id, digest, now).reply.Returned? && Claim(t, lease, id, digest, now).reply.value.Execute?
    ensures var tx := Claim(t, lease, id, digest, now);
            && id in t.actions
            && tx.reply.value.action == t.actions[id].(status := Executing, updatedAt := now, leaseExpiresAt := Some(now + lease))
            && tx.tables.actions == t.actions[id := tx.reply.value.action]
            && TransactionLaws.OneReceipt(t, tx.tables, id, ExecutionStarted, now, Some("runtime"), None)
            && TransactionLaws.ControlsStay(t, tx.tables)
  {
    if id in t.actions {
      ApprovedNeedsNoRefresh(t, id, now);
      hide RefreshState, Plan, MatchingLimits, MatchingPause, BookAll;
    }
  }

  // ---------- pauses and blocks ----------

  /** Nothing starts under a pause, and a pause block names a narrowest covering scope. */
  lemma PausesBlockStarts(t: Tables, lease: nat, id: string, digest: Digest, now: nat)
    ensures var reply := Claim(t, lease, id, digest, now).reply;
            && (reply.Returned? && reply.value.Execute? ==>
                  id in t.actions && forall scope | scope in t.pauses :: !Covers(scope, t.actions[id]))
            && (reply.Raised? && reply.error.PauseActive? ==>
                  && id in t.actions && reply.error.scope in t.pauses && Covers(reply.error.scope, t.actions[id])
                  && reply.error.reason == t.pauses[reply.error.scope].reason
                  && forall scope | scope in t.pauses && Covers(scope, t.actions[id]) ::
                       Specificity(scope) <= Specificity(reply.error.scope))
  {
    if id in t.actions {
      var t1 := RefreshState(t, id, now);
      MatchIsNarrowest(t.pauses, t1.actions[id]);
      hide MatchingPause, Plan, MatchingLimits, BookAll, Specificity;
    }
  }

  function NameOrNull(component: string): Json {
    if component == "" then Null else Str(component)
  }

  /** What the receipt of a block tells of it. */
  function Told(error: Error): Json {
    match error
    case PauseActive(_, scope, reason) =>
      Obj(map["reason" := Str(reason),
              "scope" := Obj(map["namespace" := NameOrNull(scope.namespace), "tool_name" := NameOrNull(scope.tool)])])
    case LimitExceeded(_, limitId, resource, used, requested, maximum) =>
      Obj(map["limit_id" := Str(limitId), "resource" := Str(resource), "used" := Int(used), "requested" := Int(requested),
              "maximum" := Int(maximum)])
    case LimitValueInvalid(_, limitId, valueArgument) =>
      Obj(map["limit_id" := Str(limitId), "resource" := Str(valueArgument), "error" := Str("invalid_or_missing_non_negative_integer")])
    case _ => Null
  }

  /** Nothing but one receipt of this block was added. */
  predicate BlockLeft(before: Tables, after: Tables, id: string, error: Error, now: nat) {
    && after == before.(receipts := after.receipts)
    && TransactionLaws.OneReceipt(before, after, id, if error.PauseActive? then PauseBlocked else LimitBlocked, now, Some("runtime"),
                                  Some(Encoded(Told(error))))
  }

  /**
   * A claim that raises leaves nothing behind, not even the lapse it found; only a block by a pause or a limit
   * leaves its receipt.
   */
  lemma RefusedClaimsLeaveNoTrace(t: Tables, lease: nat, id: string, digest: Digest, now: nat)
    requires Claim(t, lease, id, digest, now).reply.Raised?
    ensures var tx := Claim(t, lease, id, digest, now);
            if tx.reply.error.PauseActive? || tx.reply.error.LimitExceeded? || tx.reply.error.LimitValueInvalid? then
              BlockLeft(t, tx.tables, id, tx.reply.error, now)
            else tx.tables == t
  {
    if id in t.actions {
      var t1 := RefreshState(t, id, now);
      ApprovedNeedsNoRefresh(t, id, now);
      if t1.actions[id].digest == digest && t1.actions[id].status == Approved {
        BlocksLeaveAReceipt(t, lease, id, now);
      }
      hide RefreshState, ClaimApproved, BlockLeft, Note;
    }
  }

  /** A row still approved after a refresh was not refreshed. */
  lemma ApprovedNeedsNoRefresh(t: Tables, id: string, now: nat)
    requires id in t.actions
    ensures RefreshState(t, id, now).actions[id].status == Approved ==> RefreshState(t, id, now) == t
  {
    hide AppendReceipt;
  }

  lemma BlocksLeaveAReceipt(t: Tables, lease: nat, id: string, now: nat)
    requires id in t.actions && ClaimApproved(t, lease, id, now).reply.Raised?
    ensures var tx := ClaimApproved(t, lease, id, now);
            (tx.reply.error.PauseActive? || tx.reply.error.LimitExceeded? || tx.reply.error.LimitValueInvalid?)
            && BlockLeft(t, tx.tables, id, tx.reply.error, now)
  {
    var row := t.actions[id];
    var error := ClaimApproved(t, lease, id, now).reply.error;
    DetailsTell(error);
    Noting(t, id, row, if error.PauseActive? then PauseBlocked else LimitBlocked, now, Some(Encoded(Told(error))));
    hide MatchingPause, MatchingLimits, BookAll, Plan, PauseDetail, BlockDetail, Told, Note, TransactionLaws.OneReceipt;
  }

  lemma Noting(t: Tables, id: string, row: Action, event: Event, now: nat, detail: Option<Text>)
    ensures var after := Note(t, id, row, event, now, detail);
            && after == t.(receipts := after.receipts)
            && TransactionLaws.OneReceipt(t, after, id, event, now, Some("runtime"), detail)
  {
  }

  lemma DetailsTell(error: Error)
    ensures error.PauseActive? ==> PauseDetail(error.scope, error.reason) == Told(error)
    ensures error.LimitExceeded? || error.LimitValueInvalid? ==> BlockDetail(error) == Told(error)
  {
    if error.PauseActive? {
      assert ScopeJson(error.scope).members == map["namespace" := NameOrNull(error.scope.namespace), "tool_name" := NameOrNull(error.scope.tool)];
      assert PauseDetail(error.scope, error.reason).members == Told(error).members;
    } else if error.LimitExceeded? || error.LimitValueInvalid? {
      assert BlockDetail(error).members == Told(error).members;
    }
  }

  /** A lease protects its execution until it runs out, and no longer. */
  lemma LeaseProtects(t: Tables, lease: nat, id: string, digest: Digest, now: nat, later: nat)
    requires Claim(t, lease, id, digest, now).reply.Returned? && Claim(t, lease, id, digest, now).reply.value.Execute?
    ensures var seen := GetAction(Claim(t, lease, id, digest, now).tables, id, later).reply;
            seen.Returned? && seen.value.status == if later < now + lease then Executing else Unknown
  {
    hide MatchingPause, Plan, MatchingLimits, BookAll, AppendReceipt;
  }
}
