/** When one worker's filling pass succeeds, and that such a pass is a run of the many-worker system. */
module SyncPass {
  import opened Basics
  import opened RuntimeModels
  import opened Deliveries
  import opened OutboxSync
  import opened Passes

  /** Where an endpoint's selection starts: its checkpoint, or where registering it now would put one. */
  function SelectsAfter(o: Outbox, endpoint: Endpoint, current: nat): nat {
    if endpoint.id in o.endpoints then o.endpoints[endpoint.id].checkpoint else if endpoint.fromLatest then current else 0
  }

  /** The endpoint is unchanged since it was registered, and no block event it subscribes to is still to be selected. */
  ghost predicate Ready(o: Outbox, log: seq<Entry>, endpoint: Endpoint) {
    && (endpoint.id in o.endpoints ==> o.endpoints[endpoint.id].config == endpoint)
    && forall s: nat | Subscribed(log, endpoint, SelectsAfter(o, endpoint, |log|), |log|, s) ::
         log[s - 1].receipt.event !in {PauseBlocked, LimitBlocked}
  }

  /** One endpoint's turn touches no other endpoint. */
  lemma TurnIsLocal(o: Outbox, log: seq<Entry>, endpoint: Endpoint, sensitive: string -> bool, now: nat)
    requires Turn(o, log, endpoint, sensitive, now).reply.Returned?
    ensures var after := Turn(o, log, endpoint, sensitive, now).outbox;
            && endpoint.id in after.endpoints
            && after.endpoints[endpoint.id] == Registered(endpoint, Max(SelectsAfter(o, endpoint, |log|), |log|))
            && forall id | id != endpoint.id ::
                 && (id in after.endpoints <==> id in o.endpoints)
                 && (id in o.endpoints ==> after.endpoints[id] == o.endpoints[id])
  {
    hide Insert, Inserted, Select;
  }

  lemma OthersStayReady(o: Outbox, log: seq<Entry>, endpoint: Endpoint, sensitive: string -> bool, now: nat,
                        other: Endpoint)
    requires Turn(o, log, endpoint, sensitive, now).reply.Returned? && other.id != endpoint.id
    ensures Ready(Turn(o, log, endpoint, sensitive, now).outbox, log, other) <==> Ready(o, log, other)
  {
    TurnIsLocal(o, log, endpoint, sensitive, now);
    hide Turn;
    assert SelectsAfter(Turn(o, log, endpoint, sensitive, now).outbox, other, |log|) == SelectsAfter(o, other, |log|);
  }

  /** An endpoint's turn gets through exactly when it is ready. */
  lemma TurnSucceedsExactly(o: Outbox, log: seq<Entry>, endpoint: Endpoint, sensitive: string -> bool, now: nat)
    requires NumberedLog(log)
    ensures Turn(o, log, endpoint, sensitive, now).reply.Returned? <==> Ready(o, log, endpoint)
  {
    hide Select, Insert, Inserted;
    if Register(o, endpoint, |log|).reply.Returned? {
      SelectionSucceedsExactly(log, |log|, SelectsAfter(o, endpoint, |log|), endpoint, sensitive);
    }
  }

  lemma {:induction false} SyncFromSucceedsExactly(o: Outbox, log: seq<Entry>, endpoints: seq<Endpoint>, i: nat,
                                                   sensitive: string -> bool,
                                                   clock: nat -> nat, inserted: nat)
    requires DistinctIds(endpoints) && NumberedLog(log) && i <= |endpoints|
    ensures Sync(o, log, endpoints, i, sensitive, clock, inserted).reply.Returned?
       <==> forall j | i <= j < |endpoints| :: Ready(o, log, endpoints[j])
    decreases |endpoints| - i
  {
    if i < |endpoints| {
      hide Turn, Ready;
      TurnSucceedsExactly(o, log, endpoints[i], sensitive, clock(i));
      if Ready(o, log, endpoints[i]) {
        var turn := Turn(o, log, endpoints[i], sensitive, clock(i));
        SyncFromSucceedsExactly(turn.outbox, log, endpoints, i + 1, sensitive, clock, inserted + turn.reply.value);
        forall j | i < j < |endpoints| ensures Ready(turn.outbox, log, endpoints[j]) <==> Ready(o, log, endpoints[j]) {
          OthersStayReady(o, log, endpoints[i], sensitive, clock(i), endpoints[j]);
        }
      }
    }
  }

  /** A pass returns exactly when every configured endpoint is ready; one that is not stops those after it too. */
  lemma SyncSucceedsExactly(o: Outbox, log: seq<Entry>, endpoints: seq<Endpoint>, sensitive: string -> bool,
                            clock: nat -> nat)
    requires DistinctIds(endpoints) && NumberedLog(log)
    ensures Sync(o, log, endpoints, 0, sensitive, clock, 0).reply.Returned? <==> forall e <- endpoints :: Ready(o, log, e)
  {
    hide Ready, Sync;
    SyncFromSucceedsExactly(o, log, endpoints, 0, sensitive, clock, 0);
  }

  /** A pass that returns has brought every configured endpoint to the end of the log it saw. */
  lemma {:induction false} SyncReachesTheEnd(o: Outbox, log: seq<Entry>, endpoints: seq<Endpoint>, i: nat,
                                             sensitive: string -> bool,
                                             clock: nat -> nat, inserted: nat, k: nat)
    requires DistinctIds(endpoints) && i <= |endpoints| && k < |endpoints|
    requires k < i ==> endpoints[k].id in o.endpoints && o.endpoints[endpoints[k].id].checkpoint >= |log|
    requires Sync(o, log, endpoints, i, sensitive, clock, inserted).reply.Returned?
    ensures var after := Sync(o, log, endpoints, i, sensitive, clock, inserted).outbox;
            endpoints[k].id in after.endpoints && after.endpoints[endpoints[k].id].checkpoint >= |log|
    decreases |endpoints| - i
  {
    if i < |endpoints| {
      var turn := Turn(o, log, endpoints[i], sensitive, clock(i));
      TurnIsLocal(o, log, endpoints[i], sensitive, clock(i));
      hide Turn;
      if k < i {
        assert endpoints[k].id != endpoints[i].id;
      }
      SyncReachesTheEnd(turn.outbox, log, endpoints, i + 1, sensitive, clock, inserted + turn.reply.value, k);
    }
  }

  // ---------- a pass is a run of the system ----------

  function From(m: Machine, sensitive: string -> bool, moves: seq<Move>): Machine
    decreases |moves|
  {
    if moves == [] then m else From(Next(m, sensitive, moves[0]), sensitive, moves[1..])
  }

  lemma {:induction false} ReachedFurther(sensitive: string -> bool, first: seq<Move>, later: seq<Move>)
    ensures Reached(sensitive, first + later) == From(Reached(sensitive, first), sensitive, later)
    decreases |later|
  {
    if later == [] {
      assert first + later == first;
    } else {
      hide Next;
      ReachedFurther(sensitive, first + [later[0]], later[1..]);
      assert first + [later[0]] + later[1..] == first + later;
      assert (first + [later[0]])[..|first|] == first;
    }
  }

  lemma FromTwo(m: Machine, sensitive: string -> bool, a: Move, b: Move, rest: seq<Move>)
    ensures From(m, sensitive, [a, b] + rest) == From(Next(Next(m, sensitive, a), sensitive, b), sensitive, rest)
  {
    hide Next;
    var moves := [a, b] + rest;
    assert moves[1..][0] == b && moves[1..][1..] == rest;
    assert From(m, sensitive, moves) == From(Next(m, sensitive, a), sensitive, moves[1..]);
  }

  /** The uninterrupted moves of worker `w` for the endpoints from `i` on. */
  function Turns(w: nat, n: nat, i: nat, clock: nat -> nat): seq<Move>
    requires i <= n
    decreases n - i
  {
    if i == n then [] else [RegisterNext(w), EnqueueNext(w, clock(i))] + Turns(w, n, i + 1, clock)
  }

  lemma {:induction false} IdleTurnsDoNothing(m: Machine, w: nat, n: nat, i: nat, sensitive: string -> bool,
                                              clock: nat -> nat)
    requires WorkerAt(m, w).Idle? && i <= n
    ensures From(m, sensitive, Turns(w, n, i, clock)).outbox == m.outbox
    decreases n - i
  {
    if i < n {
      hide Select, Enqueue, Register, From;
      var m1 := Next(m, sensitive, RegisterNext(w));
      var m2 := Next(m1, sensitive, EnqueueNext(w, clock(i)));
      FromTwo(m, sensitive, RegisterNext(w), EnqueueNext(w, clock(i)), Turns(w, n, i + 1, clock));
      IdleTurnsDoNothing(m2, w, n, i + 1, sensitive, clock);
    }
  }

  /** One endpoint's two moves. */
  lemma OneTurn(m: Machine, w: nat, rest: seq<Endpoint>, sensitive: string -> bool, now: nat)
    requires rest != [] && WorkerAt(m, w) == Polling(rest, |m.log|)
    ensures var m2 := Next(Next(m, sensitive, RegisterNext(w)), sensitive, EnqueueNext(w, now));
            var turn := Turn(m.outbox, m.log, rest[0], sensitive, now);
            && m2.log == m.log && m2.outbox == turn.outbox
            && WorkerAt(m2, w) == if turn.reply.Raised? then Idle else Polling(rest[1..], |m.log|)
  {
    hide Select, Insert, Inserted;
  }

  /** Filling in one go leaves the outbox that the system reaches when nobody acts in between. */
  lemma {:induction false} SyncIsARun(m: Machine, w: nat, endpoints: seq<Endpoint>, i: nat, sensitive: string -> bool,
                                      clock: nat -> nat, inserted: nat)
    requires i <= |endpoints| && WorkerAt(m, w) == Polling(endpoints[i..], |m.log|)
    ensures Sync(m.outbox, m.log, endpoints, i, sensitive, clock, inserted).outbox
         == From(m, sensitive, Turns(w, |endpoints|, i, clock)).outbox
    decreases |endpoints| - i
  {
    hide *;
    SyncUnfolds(m, w, endpoints, i, sensitive, clock, inserted);
    if i < |endpoints| {
      var m2 := Next(Next(m, sensitive, RegisterNext(w)), sensitive, EnqueueNext(w, clock(i)));
      assert endpoints[i..][0] == endpoints[i] && endpoints[i..][1..] == endpoints[i + 1..];
      FromTwo(m, sensitive, RegisterNext(w), EnqueueNext(w, clock(i)), Turns(w, |endpoints|, i + 1, clock));
      OneTurn(m, w, endpoints[i..], sensitive, clock(i));
      var turn := Turn(m.outbox, m.log, endpoints[i], sensitive, clock(i));
      if turn.reply.Raised? {
        IdleTurnsDoNothing(m2, w, |endpoints|, i + 1, sensitive, clock);
      } else {
        SyncIsARun(m2, w, endpoints, i + 1, sensitive, clock, inserted + turn.reply.value);
      }
    }
  }

  lemma SyncUnfolds(m: Machine, w: nat, endpoints: seq<Endpoint>, i: nat, sensitive: string -> bool, clock: nat -> nat,
                    inserted: nat)
    requires i <= |endpoints|
    ensures var sync := Sync(m.outbox, m.log, endpoints, i, sensitive, clock, inserted);
            if i == |endpoints| then sync.outbox == m.outbox && From(m, sensitive, Turns(w, |endpoints|, i, clock)) == m
            else
              && Turns(w, |endpoints|, i, clock) == [RegisterNext(w), EnqueueNext(w, clock(i))] + Turns(w, |endpoints|, i + 1, clock)
              && var turn := Turn(m.outbox, m.log, endpoints[i], sensitive, clock(i));
                 sync == if turn.reply.Raised? then turn
                         else Sync(turn.outbox, m.log, endpoints, i + 1, sensitive, clock, inserted + turn.reply.value)
  {
    hide Turn, Next;
  }
}
