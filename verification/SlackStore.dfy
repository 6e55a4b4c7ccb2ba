/** The notification store and the worker that fills and drains it, updating their tables in place. */
module SlackStores {
  import opened Basics
  import opened Retries
  import opened RuntimeModels
  import opened SlackBoards
  import T = Transactions
  import opened RuntimeStores

  class SlackNotificationStore {
    const lease: Tries
    var rows: Board

    constructor (lease: Tries)
      ensures this.lease == lease && rows == map[]
    {
      this.lease := lease;
      rows := map[];
    }

    method Enqueue(actionId: string, digest: Digest, channel: string, now: nat) returns (r: Outcome<bool, SlackError>)
      modifies this
      ensures Tx(rows, r) == SlackBoards.Enqueue(old(rows), actionId, digest, channel, now)
    {
      if actionId in rows {
        if rows[actionId].digest != digest || rows[actionId].channel != channel {
          return Raised(BindingChanged);
        }
        return Returned(false);
      }
      rows := rows[actionId := Notification(digest, channel, Waiting, 0, now, None, None, None, None, None, None, None, None)];
      return Returned(true);
    }

    method ClaimDue(worker: string, now: nat) returns (r: Outcome<Option<Claimed>, SlackError>)
      modifies this
      ensures Tx(rows, r) == SlackBoards.ClaimDue(old(rows), lease, worker, now)
    {
      if Blank(worker) {
        return Raised(InvalidInput);
      }
      rows := Reclaimed(rows, now);
      var first := FirstDue(rows, now);
      if first.None? {
        return Returned(None);
      }
      var n := rows[first.value];
      rows := rows[first.value := n.(status := Posting, attempts := n.attempts + 1, owner := Some(worker), lease := Some(now + lease))];
      return Returned(Some(Claimed(first.value, n.digest, n.channel, n.attempts + 1)));
    }

    method RequireOwned(id: string, worker: string) returns (error: Option<SlackError>)
      ensures error == Ownership(rows, id, worker)
    {
      if id !in rows {
        return Some(NotFound);
      }
      if rows[id].status != Posting || rows[id].owner != Some(worker) {
        return Some(NotOwned);
      }
      return None;
    }

    method MarkPosted(id: string, worker: string, ts: string, code: int) returns (r: Outcome<(), SlackError>)
      modifies this
      ensures Tx(rows, r) == SlackBoards.MarkPosted(old(rows), id, worker, ts, code)
    {
      if !MessageTs(ts) || !(100 <= code <= 599) {
        return Raised(InvalidInput);
      }
      var error := RequireOwned(id, worker);
      if error.Some? {
        return Raised(error.value);
      }
      rows := rows[id := rows[id].(status := Posted, messageTs := Some(ts), statusCode := Some(code), error := None,
                                   owner := None, lease := None)];
      return Returned(());
    }

    method MarkFailed(claimed: Claimed, worker: string, config: Config, code: Option<int>, failure: string,
                      retryable: bool, retryAfter: Option<nat>, now: nat)
      returns (r: Outcome<bool, SlackError>)
      modifies this
      ensures Tx(rows, r) == SlackBoards.MarkFailed(old(rows), claimed, worker, config, code, failure, retryable, retryAfter, now)
    {
      if !SafeCode(failure) {
        return Raised(InvalidInput);
      }
      var terminal := !retryable || claimed.attempts >= config.maxAttempts;
      var next := if terminal then now else now + Backoff(config, claimed.attempts, retryAfter);
      var error := RequireOwned(claimed.actionId, worker);
      if error.Some? {
        return Raised(error.value);
      }
      rows := rows[claimed.actionId := rows[claimed.actionId].(status := if terminal then Dead else Waiting, nextAttemptAt := next,
                                                               statusCode := code, error := Some(failure), owner := None, lease := None)];
      return Returned(terminal);
    }

    method MarkObsolete(id: string, worker: string, reason: string) returns (r: Outcome<(), SlackError>)
      modifies this
      ensures Tx(rows, r) == SlackBoards.MarkObsolete(old(rows), id, worker, reason)
    {
      if !SafeCode(reason) {
        return Raised(InvalidInput);
      }
      var error := RequireOwned(id, worker);
      if error.Some? {
        return Raised(error.value);
      }
      rows := rows[id := rows[id].(status := Obsolete, error := Some(reason), owner := None, lease := None)];
      return Returned(());
    }

    method MarkDecided(id: string, digest: Digest, reviewer: string, decision: Decision, now: nat)
      returns (r: Outcome<(), SlackError>)
      modifies this
      ensures Tx(rows, r) == SlackBoards.MarkDecided(old(rows), id, digest, reviewer, decision, now)
    {
      if id !in rows || rows[id].digest != digest {
        return Raised(BindingChanged);
      }
      rows := rows[id := rows[id].(status := Settled, decidedBy := Some(reviewer), decision := Some(decision), decidedAt := Some(now))];
      return Returned(());
    }

    method RetryDead(id: string, now: nat) returns (r: Outcome<Notification, SlackError>)
      modifies this
      ensures Tx(rows, r) == SlackBoards.RetryDead(old(rows), id, now)
    {
      if id !in rows {
        return Raised(NotFound);
      }
      if rows[id].status != Dead {
        return Raised(NotDead);
      }
      rows := rows[id := rows[id].(status := Waiting, attempts := 0, nextAttemptAt := now, owner := None, lease := None, error := None)];
      return Returned(rows[id]);
    }
  }

  /** How one round of the loop ended, and for which action. */
  datatype Round = NothingDue | Sending(id: string) | Retrying | GivingUp | Dropping(id: string)

  /** What a round does with the queue that its claim left, for the action as it was looked up. */
  predicate RoundLeft(claimed: Board, after: Board, c: Claimed, worker: string, config: Config, action: Option<Action>, response: Response,
                      now: nat, round: Round) {
    var reason := Obsolescence(action, c.digest);
    if reason.Some? then
      var tx := MarkObsolete(claimed, c.actionId, worker, reason.value);
      tx.reply.Returned? && after == tx.board && round == Dropping(c.actionId)
    else
      match Judged(response, c.channel)
      case Accepted(ts, code) =>
        var tx := MarkPosted(claimed, c.actionId, worker, ts, code);
        tx.reply.Returned? && after == tx.board && round == Sending(c.actionId)
      case Refused(error, code, retryable, retryAfter) =>
        var tx := MarkFailed(claimed, c, worker, config, code, error, retryable, retryAfter, now);
        tx.reply.Returned? && after == tx.board && round == if tx.reply.value then GivingUp else Round.Retrying
  }

  /** How many notifications of each finished status there are, before and after a round. */
  ghost predicate CountsMove(before: Board, after: Board, round: Round) {
    && Having(after, Posted) == Having(before, Posted) + (if round.Sending? then 1 else 0)
    && Having(after, Dead) == Having(before, Dead) + (if round.GivingUp? then 1 else 0)
    && Having(after, Obsolete) == Having(before, Obsolete) + (if round.Dropping? then 1 else 0)
  }

  lemma RoundMovesCounts(before: Board, lease: Tries, worker: string, at: nat, after: Board, config: Config, action: Option<Action>,
                         response: Response, now: nat, round: Round)
    requires var claim := SlackBoards.ClaimDue(before, lease, worker, at);
             claim.reply.Returned? && claim.reply.value.Some?
             && RoundLeft(claim.board, after, claim.reply.value.value, worker, config, action, response, now, round)
    ensures CountsMove(before, after, round)
  {
    var claim := SlackBoards.ClaimDue(before, lease, worker, at);
    var c := claim.reply.value.value;
    RoundChangesRow(claim.board, after, c, worker, config, action, response, now, round);
    hide SlackBoards.ClaimDue, RoundLeft, Having;
    ClaimFinishesNone(before, lease, worker, at, Posted);
    ClaimFinishesNone(before, lease, worker, at, Dead);
    ClaimFinishesNone(before, lease, worker, at, Obsolete);
    RowMovesCount(claim.board, c.actionId, after[c.actionId], Posted);
    RowMovesCount(claim.board, c.actionId, after[c.actionId], Dead);
    RowMovesCount(claim.board, c.actionId, after[c.actionId], Obsolete);
  }

  lemma RoundChangesRow(claimed: Board, after: Board, c: Claimed, worker: string, config: Config, action: Option<Action>, response: Response,
                        now: nat, round: Round)
    requires RoundLeft(claimed, after, c, worker, config, action, response, now, round)
    ensures c.actionId in claimed && claimed[c.actionId].status == Posting && c.actionId in after
    ensures after == claimed[c.actionId := after[c.actionId]]
    ensures var status := after[c.actionId].status;
            && (round.Sending? <==> status == Posted) && (round.GivingUp? <==> status == Dead) && (round.Dropping? <==> status == Obsolete)
  {
    hide MessageTs, SafeCode, Backoff, Judged, Obsolescence;
  }

  datatype Counts = Counts(enqueued: nat, posted: nat, retried: nat, dead: nat)

  class SlackWorker {
    const store: SlackNotificationStore
    const runtime: RuntimeStore
    const config: Config
    const name: string

    constructor (store: SlackNotificationStore, runtime: RuntimeStore, config: Config, name: string)
      ensures this.store == store && this.runtime == runtime && this.config == config && this.name == name
    {
      this.store, this.runtime, this.config, this.name := store, runtime, config, name;
    }

    method SyncPending(listedAt: nat, clock: nat -> nat) returns (r: Outcome<nat, SlackError>)
      modifies store, runtime
      ensures var listed := T.ListActions(old(runtime.Contents()), Some(Pending), listedAt);
              && runtime.Contents() == listed.tables
              && Tx(store.rows, r) == EnqueueAll(old(store.rows), listed.reply.value, config, clock)
    {
      hide T.RefreshAll, T.WithStatus, T.CreationOrder, CanAccess, SlackBoards.Enqueue;
      var listed := runtime.ListActions(Some(Pending), listedAt);
      var actions := listed.value;
      var inserted: nat := 0;
      for k := 0 to |actions|
        invariant runtime.Contents() == T.ListActions(old(runtime.Contents()), Some(Pending), listedAt).tables
        invariant Tx(store.rows, Returned(inserted)) == EnqueueAll(old(store.rows), actions[..k], config, clock)
      {
        assert actions[..k + 1][..k] == actions[..k];
        if CanAccess(config, actions[k]) {
          var added := store.Enqueue(actions[k].actionId, actions[k].digest, config.channel, clock(k));
          if added.Raised? {
            FailedFillStops(old(store.rows), actions, k + 1, config, clock);
            return Raised(added.error);
          }
          inserted := inserted + if added.value then 1 else 0;
        }
      }
      assert actions[..|actions|] == actions;
      return Returned(inserted);
    }

    /** The row of an action, if there is one. */
    static function LookedUp(t: Tables, id: string): Option<Action> {
      if id in t.actions then Some(t.actions[id]) else None
    }

    /** True when the notification's action is still pending and still the one it was enqueued for. */
    predicate Current(id: string, digest: Digest)
      reads runtime
    {
      id in runtime.actions && runtime.actions[id].digest == digest && runtime.actions[id].status == Pending
    }

    /**
     * One round of the loop. A message is sent only for an action that is pending, under the notification's digest,
     * at that moment; otherwise the notification becomes obsolete.
     */
    method DeliverNext(claimedAt: nat, lookedUpAt: nat, response: Response, finishedAt: nat)
      returns (r: Outcome<Round, SlackError>, claimed: nat)
      modifies store, runtime
      ensures Onward(old(store.rows), store.rows)
      ensures claimed == 0 || (claimed == 1 && Budget(old(store.rows), config.maxAttempts) >= 1)
      ensures r.Returned? ==> (claimed == 0 <==> r.value.NothingDue?)
      ensures r.Returned? && claimed == 0 ==>
                && Budget(store.rows, config.maxAttempts) == Budget(old(store.rows), config.maxAttempts)
                && forall id | id in store.rows :: !Due(store.rows[id], claimedAt)
      ensures r.Returned? && claimed == 1 ==> Budget(store.rows, config.maxAttempts) < Budget(old(store.rows), config.maxAttempts)
      ensures var claim := SlackBoards.ClaimDue(old(store.rows), store.lease, name, claimedAt);
              && (claimed == 1 <==> claim.reply.Returned? && claim.reply.value.Some?)
              && (claimed == 0 ==> store.rows == claim.board && runtime.Contents() == old(runtime.Contents()))
              && (claimed == 1 ==> runtime.Contents() == T.GetAction(old(runtime.Contents()), claim.reply.value.value.actionId, lookedUpAt).tables)
              && (r.Returned? && claimed == 1 ==>
                    var c := claim.reply.value.value;
                    RoundLeft(claim.board, store.rows, c, name, config, LookedUp(runtime.Contents(), c.actionId), response, finishedAt, r.value))
      ensures r.Returned? && r.value.Sending? ==>
                var id := r.value.id;
                id in store.rows && store.rows[id].status == Posted && Current(id, store.rows[id].digest)
      ensures r.Returned? && r.value.Dropping? ==>
                var id := r.value.id;
                id in store.rows && store.rows[id].status == Obsolete && !Current(id, store.rows[id].digest)
    {
      hide Budget, SafeCode, Onward, SlackBoards.ClaimDue, SlackBoards.MarkPosted, SlackBoards.MarkFailed, SlackBoards.MarkObsolete,
        T.GetAction, Obsolescence, Judged;
      ghost var before := store.rows;
      ClaimSpends(before, config.maxAttempts, store.lease, name, claimedAt);
      ClaimGoesOnward(before, store.lease, name, claimedAt);
      var claim := store.ClaimDue(name, claimedAt);
      if claim.Raised? {
        return Raised(claim.error), 0;
      }
      if claim.value.None? {
        return Returned(NothingDue), 0;
      }
      var notification := claim.value.value;
      ghost var held := store.rows;
      var id := notification.actionId;
      var reason := LookUp(notification, lookedUpAt);
      if reason.Some? {
        ObsoleteSpends(before, held, config.maxAttempts, notification, name, reason.value);
        var dropped := store.MarkObsolete(id, name, reason.value);
        OnwardChains(before, held, store.rows);
        return Returned(Dropping(id)), 1;
      }
      var judged := Judged(response, notification.channel);
      if judged.Accepted? {
        PostSpends(before, held, config.maxAttempts, notification, name, judged.ts, judged.statusCode);
        var posted := store.MarkPosted(id, name, judged.ts, judged.statusCode);
        OnwardChains(before, held, store.rows);
        if posted.Raised? {
          return Raised(posted.error), 1;
        }
        return Returned(Sending(id)), 1;
      }
      FailureSpends(before, held, config, notification, name, judged.answered, judged.code, judged.retryable, judged.retryAfter, finishedAt);
      var outcome := store.MarkFailed(notification, name, config, judged.answered, judged.code, judged.retryable, judged.retryAfter, finishedAt);
      OnwardChains(before, held, store.rows);
      return Returned(if outcome.value then GivingUp else Round.Retrying), 1;
    }

    /** Why the notification is obsolete, if it is. Looking the action up refreshes it. */
    method LookUp(notification: Claimed, now: nat) returns (reason: Option<string>)
      modifies runtime
      ensures runtime.Contents() == T.GetAction(old(runtime.Contents()), notification.actionId, now).tables
      ensures reason.None? <==> Current(notification.actionId, notification.digest)
      ensures reason.Some? ==> SafeCode(reason.value)
      ensures reason == Obsolescence(LookedUp(runtime.Contents(), notification.actionId), notification.digest)
    {
      hide SafeCode, StatusTitle, T.RefreshState;
      FixedReasonsAreSafe();
      var found := runtime.GetAction(notification.actionId, now);
      if found.Raised? {
        return Some("ActionMissing");
      }
      if found.value.digest != notification.digest {
        return Some("BindingChanged");
      }
      if found.value.status != Pending {
        StatusTitlesAreSafe(found.value.status);
        return Some("Status" + StatusTitle(found.value.status));
      }
      return None;
    }

    /**
     * One pass. `clock(n)` is the n-th reading of a clock and `api(n)` the answer to the n-th request; nothing else
     * uses the queue meanwhile. Dropped notifications are in none of the returned counts.
     */
    method RunOnce(listedAt: nat, syncClock: nat -> nat, clock: nat -> nat, api: nat -> Response)
      returns (r: Outcome<Counts, SlackError>, claims: nat, dropped: nat)
      modifies store, runtime
      ensures var listed := T.ListActions(old(runtime.Contents()), Some(Pending), listedAt).reply.value;
              var synced := EnqueueAll(old(store.rows), listed, config, syncClock);
              && Onward(synced.board, store.rows)
              && claims <= Budget(synced.board, config.maxAttempts)
              && (synced.reply.Raised? ==> r == Raised(synced.reply.error) && store.rows == synced.board)
              && (r.Returned? ==>
                    && r.value.enqueued == synced.reply.value
                    && r.value.posted + r.value.retried + r.value.dead + dropped == claims
                    && Having(store.rows, Posted) == Having(synced.board, Posted) + r.value.posted
                    && Having(store.rows, Dead) == Having(synced.board, Dead) + r.value.dead
                    && Having(store.rows, Obsolete) == Having(synced.board, Obsolete) + dropped
                    && forall id | id in store.rows :: !Due(store.rows[id], clock(3 * claims)))
    {
      hide Budget, Onward, EnqueueAll, T.RefreshAll, T.WithStatus, T.CreationOrder, T.GetAction, RoundLeft, SlackBoards.ClaimDue, Having;
      claims, dropped := 0, 0;
      var enqueued := SyncPending(listedAt, syncClock);
      ghost var synced := store.rows;
      BudgetIsNotNegative(synced, config.maxAttempts);
      OnwardAtOnce(synced);
      if enqueued.Raised? {
        return Raised(enqueued.error), 0, 0;
      }
      var counts := Counts(enqueued.value, 0, 0, 0);
      while true
        invariant Onward(synced, store.rows)
        invariant claims <= Budget(synced, config.maxAttempts) - Budget(store.rows, config.maxAttempts)
        invariant Budget(store.rows, config.maxAttempts) >= 0
        invariant counts.enqueued == enqueued.value && counts.posted + counts.retried + counts.dead + dropped == claims
        invariant Having(store.rows, Posted) == Having(synced, Posted) + counts.posted
        invariant Having(store.rows, Dead) == Having(synced, Dead) + counts.dead
        invariant Having(store.rows, Obsolete) == Having(synced, Obsolete) + dropped
        decreases Budget(store.rows, config.maxAttempts)
      {
        ghost var before := store.rows;
        var round, claimed := DeliverNext(clock(3 * claims), clock(3 * claims + 1), api(claims), clock(3 * claims + 2));
        forall status | status in FINISHED {
          ClaimFinishesNone(before, store.lease, name, clock(3 * claims), status);
        }
        if round.Returned? && claimed == 1 {
          var id := SlackBoards.ClaimDue(before, store.lease, name, clock(3 * claims)).reply.value.value.actionId;
          RoundMovesCounts(before, store.lease, name, clock(3 * claims), store.rows, config, LookedUp(runtime.Contents(), id), api(claims),
                           clock(3 * claims + 2), round.value);
        }
        BudgetIsNotNegative(store.rows, config.maxAttempts);
        OnwardChains(synced, before, store.rows);
        claims := claims + claimed;
        if round.Raised? {
          return Raised(round.error), claims, dropped;
        }
        match round.value {
          case NothingDue => return Returned(counts), claims, dropped;
          case Sending(_) => counts := counts.(posted := counts.posted + 1);
          case Retrying => counts := counts.(retried := counts.retried + 1);
          case GivingUp => counts := counts.(dead := counts.dead + 1);
          case Dropping(_) => dropped := dropped + 1;
        }
      }
    }
  }
}
