/**
 * Workers that deliver from one outbox. Each has a name of its own and processes one claim at a time; it may crash
 * while holding one, and its lease may run out while it is still at work.
 */
module Ownership {
  import opened Basics
  import opened Retries
  import opened RuntimeModels
  import opened Deliveries
  import OutboxSync
  import Passes

  /** `held` is what each worker is processing. `reclaims` counts, for a delivery, the leases lost since its last manual retry. */
  datatype Fleet = Fleet(outbox: Outbox, held: map<string, Claimed>, reclaims: map<DeliveryKey, nat>)

  datatype Move =
    | Fill(log: seq<Entry>, endpoint: Endpoint, now: nat)
    | Claim(worker: string, lease: Tries, now: nat)
    | Deliver(worker: string, statusCode: int, now: nat)
    | Fail(worker: string, answered: Option<int>, error: string, now: nat)
    | Crash(worker: string)
    | Retry(key: DeliveryKey, now: nat)

  const START := Fleet(Outbox(map[], map[]), map[], map[])

  function ReclaimsOf(f: Fleet, key: DeliveryKey): nat {
    if key in f.reclaims then f.reclaims[key] else 0
  }

  function Lost(f: Fleet, now: nat): map<DeliveryKey, nat> {
    map key | key in f.outbox.deliveries :: ReclaimsOf(f, key) + if Abandoned(f.outbox.deliveries[key], now) then 1 else 0
  }

  /** A worker claims only while it holds nothing. */
  function Claiming(f: Fleet, worker: string, lease: Tries, now: nat): Fleet {
    var tx := ClaimDue(f.outbox, lease, worker, now);
    if worker in f.held || tx.reply.Raised? then f
    else
      Fleet(tx.outbox, if tx.reply.value.None? then f.held else f.held[worker := tx.reply.value.value], Lost(f, now))
  }

  /** Finishing ends the claim whether the store accepts it or raises. */
  function Finishing(f: Fleet, worker: string, tx: Outbox): Fleet {
    f.(outbox := tx, held := f.held - {worker})
  }

  /** A worker got past filling the outbox, so its endpoint is the one registered. */
  function Failing(f: Fleet, worker: string, code: Option<int>, error: string, now: nat): Fleet {
    if worker !in f.held || f.held[worker].key.endpointId !in f.outbox.endpoints then f
    else
      var endpoint := f.outbox.endpoints[f.held[worker].key.endpointId].config;
      Finishing(f, worker, MarkFailed(f.outbox, f.held[worker], worker, endpoint, code, error, now).outbox)
  }

  function Next(f: Fleet, sensitive: string -> bool, move: Move): Fleet {
    match move
    case Fill(log, endpoint, now) => f.(outbox := Passes.Turn(f.outbox, log, endpoint, sensitive, now).outbox)
    case Claim(worker, lease, now) => Claiming(f, worker, lease, now)
    case Deliver(worker, code, now) =>
      if worker !in f.held then f else Finishing(f, worker, MarkDelivered(f.outbox, f.held[worker].key, worker, code, now).outbox)
    case Fail(worker, code, error, now) => Failing(f, worker, code, error, now)
    case Crash(worker) => f.(held := f.held - {worker})
    case Retry(key, now) =>
      var tx := RetryDead(f.outbox, key, now);
      if tx.reply.Raised? then f else Fleet(tx.outbox, f.held, f.reclaims[key := 0])
  }

  function Reached(sensitive: string -> bool, moves: seq<Move>): Fleet {
    if moves == [] then START else Next(Reached(sensitive, moves[..|moves| - 1]), sensitive, moves[|moves| - 1])
  }

  // ---------- the invariant ----------

  /** A delivery is under way exactly while it has an owner and a lease; each lost lease allows one more attempt. */
  predicate SoundDelivery(d: Delivery, maxTries: Tries, reclaims: nat) {
    && (d.status == Delivering <==> d.owner.Some?)
    && (d.owner.Some? <==> d.lease.Some?)
    && (d.status == Waiting ==> d.attempts < maxTries + reclaims)
    && (d.status == Delivering ==> d.attempts >= 1)
    && d.attempts <= maxTries + reclaims
  }

  ghost predicate SoundAt(f: Fleet, key: DeliveryKey)
    requires key in f.outbox.deliveries
  {
    && key.endpointId in f.outbox.endpoints
    && f.outbox.endpoints[key.endpointId].config.id == key.endpointId
    && SoundDelivery(f.outbox.deliveries[key], f.outbox.endpoints[key.endpointId].config.maxAttempts, ReclaimsOf(f, key))
  }

  /** While a worker owns the row of its claim, the claim is the row's latest. */
  predicate SoundHold(f: Fleet, worker: string)
    requires worker in f.held
  {
    Owned(f.outbox, f.held[worker].key, worker) ==> f.outbox.deliveries[f.held[worker].key].attempts == f.held[worker].attempts
  }

  ghost predicate Sound(f: Fleet) {
    && (forall id | id in f.outbox.endpoints :: f.outbox.endpoints[id].config.id == id)
    && (forall key | key in f.outbox.deliveries :: SoundAt(f, key))
    && (forall worker | worker in f.held :: SoundHold(f, worker))
    && (forall key | key in f.reclaims :: key in f.outbox.deliveries)
  }

  /** Filling keeps every endpoint and delivery, and adds deliveries that wait for their first attempt. */
  lemma FillAdds(o: Outbox, log: seq<Entry>, endpoint: Endpoint, sensitive: string -> bool, now: nat)
    ensures var after := Passes.Turn(o, log, endpoint, sensitive, now).outbox;
            && (forall id | id in o.endpoints :: id in after.endpoints && after.endpoints[id].config == o.endpoints[id].config)
            && (forall id | id in after.endpoints && id !in o.endpoints :: id == endpoint.id && after.endpoints[id].config == endpoint)
            && (forall key | key in o.deliveries :: key in after.deliveries && after.deliveries[key] == o.deliveries[key])
            && (forall key | key in after.deliveries && key !in o.deliveries ::
                  && key.endpointId == endpoint.id && endpoint.id in after.endpoints && after.endpoints[endpoint.id].config == endpoint
                  && after.deliveries[key].status == Waiting && after.deliveries[key].attempts == 0
                  && after.deliveries[key].owner.None? && after.deliveries[key].lease.None?)
  {
    hide Insert, Inserted, OutboxSync.Select;
    var registered := Register(o, endpoint, |log|);
    if registered.reply.Returned? {
      var items := OutboxSync.Select(log, |log|, registered.reply.value, endpoint, sensitive);
      if items.Some? {
        OutboxSync.InsertExact(registered.outbox.deliveries, endpoint, registered.outbox.endpoints[endpoint.id].checkpoint, items.value, now);
      }
    }
  }

  lemma FillKeeps(f: Fleet, sensitive: string -> bool, log: seq<Entry>, endpoint: Endpoint, now: nat)
    requires Sound(f)
    ensures Sound(Next(f, sensitive, Fill(log, endpoint, now)))
  {
    FillAdds(f.outbox, log, endpoint, sensitive, now);
    hide Passes.Turn;
    var f1 := Next(f, sensitive, Fill(log, endpoint, now));
    forall key | key in f1.outbox.deliveries ensures SoundAt(f1, key) {
      if key in f.outbox.deliveries {
        assert SoundAt(f, key);
      }
    }
    forall worker | worker in f1.held ensures SoundHold(f1, worker) {
      assert SoundHold(f, worker);
      assert f.held[worker].key in f.outbox.deliveries || f1.held[worker].key !in f1.outbox.deliveries
             || f1.outbox.deliveries[f1.held[worker].key].status == Waiting;
    }
  }

  /** A claim first lets every lost lease go, then at most hands one waiting delivery to the worker. */
  lemma ClaimEffect(o: Outbox, lease: Tries, worker: string, now: nat, key: DeliveryKey)
    requires key in o.deliveries && ClaimDue(o, lease, worker, now).reply.Returned?
    ensures var tx := ClaimDue(o, lease, worker, now);
            && tx.outbox.endpoints == o.endpoints && tx.outbox.deliveries.Keys == o.deliveries.Keys
            && var d, after := Reclaimed(o.deliveries, now)[key], tx.outbox.deliveries[key];
               if tx.reply.value.Some? && tx.reply.value.value.key == key then
                 && d.status == Waiting && tx.reply.value.value.attempts == d.attempts + 1
                 && after == d.(status := Delivering, attempts := d.attempts + 1, owner := Some(worker), lease := Some(now + lease))
               else after == d
  {
    hide FirstDue;
  }

  lemma ClaimKeepsAt(f: Fleet, worker: string, lease: Tries, now: nat, key: DeliveryKey)
    requires key in f.outbox.deliveries && SoundAt(f, key) && ClaimDue(f.outbox, lease, worker, now).reply.Returned? && worker !in f.held
    ensures key in Claiming(f, worker, lease, now).outbox.deliveries && SoundAt(Claiming(f, worker, lease, now), key)
  {
    ClaimEffect(f.outbox, lease, worker, now, key);
    hide ClaimDue;
  }

  lemma ClaimKeepsHold(f: Fleet, worker: string, lease: Tries, now: nat, w: string)
    requires ClaimDue(f.outbox, lease, worker, now).reply.Returned? && worker !in f.held
    requires w in Claiming(f, worker, lease, now).held && (w in f.held ==> SoundHold(f, w))
    ensures SoundHold(Claiming(f, worker, lease, now), w)
  {
    var f1 := Claiming(f, worker, lease, now);
    ClaimKeys(f.outbox, lease, worker, now);
    if f1.held[w].key in f.outbox.deliveries {
      ClaimEffect(f.outbox, lease, worker, now, f1.held[w].key);
    }
    hide ClaimDue;
  }

  lemma ClaimKeys(o: Outbox, lease: Tries, worker: string, now: nat)
    ensures var tx := ClaimDue(o, lease, worker, now);
            && tx.outbox.endpoints == o.endpoints && tx.outbox.deliveries.Keys == o.deliveries.Keys
            && (tx.reply.Raised? <==> Blank(worker))
  {
    hide FirstDue;
  }

  lemma ClaimKeeps(f: Fleet, worker: string, lease: Tries, now: nat)
    requires Sound(f)
    ensures Sound(Claiming(f, worker, lease, now))
  {
    ClaimKeys(f.outbox, lease, worker, now);
    hide ClaimDue, SoundAt, SoundHold;
    var f1 := Claiming(f, worker, lease, now);
    if worker !in f.held && !Blank(worker) {
      forall key | key in f1.outbox.deliveries ensures SoundAt(f1, key) {
        ClaimKeepsAt(f, worker, lease, now, key);
      }
      forall w | w in f1.held ensures SoundHold(f1, w) {
        ClaimKeepsHold(f, worker, lease, now, w);
      }
    }
  }

  /** Changing one delivery within its bounds, and dropping or keeping holds, keeps the rest sound. */
  lemma RowKeeps(f: Fleet, key: DeliveryKey, d: Delivery, held: map<string, Claimed>, reclaims: map<DeliveryKey, nat>)
    requires Sound(f) && key in f.outbox.deliveries
    requires forall w | w in held :: w in f.held && held[w] == f.held[w]
    requires d.status != Delivering
    requires reclaims == f.reclaims || reclaims == f.reclaims[key := 0]
    requires SoundDelivery(d, f.outbox.endpoints[key.endpointId].config.maxAttempts, if key in reclaims then reclaims[key] else 0)
    ensures Sound(Fleet(f.outbox.(deliveries := f.outbox.deliveries[key := d]), held, reclaims))
  {
    var f1 := Fleet(f.outbox.(deliveries := f.outbox.deliveries[key := d]), held, reclaims);
    forall k | k in f1.outbox.deliveries ensures SoundAt(f1, k) {
      assert SoundAt(f, k);
    }
    forall w | w in f1.held ensures SoundHold(f1, w) {
      assert SoundHold(f, w);
    }
  }

  lemma FinishKeeps(f: Fleet, sensitive: string -> bool, move: Move)
    requires Sound(f) && (move.Deliver? || move.Fail?)
    ensures Sound(Next(f, sensitive, move))
  {
    hide Sound, Backoff;
    DropKeeps(f, move.worker);
    if move.worker in f.held && Owned(f.outbox, f.held[move.worker].key, move.worker) {
      HoldFacts(f, move.worker);
      var key := f.held[move.worker].key;
      var f1 := Next(f, sensitive, move);
      if f1.outbox != f.outbox {
        RowKeeps(f, key, f1.outbox.deliveries[key], f.held - {move.worker}, f.reclaims);
      }
    }
  }

  lemma HoldFacts(f: Fleet, worker: string)
    requires Sound(f) && worker in f.held && Owned(f.outbox, f.held[worker].key, worker)
    ensures SoundAt(f, f.held[worker].key) && SoundHold(f, worker)
  {
  }

  lemma DropKeeps(f: Fleet, worker: string)
    requires Sound(f)
    ensures Sound(f.(held := f.held - {worker}))
  {
    var f1 := f.(held := f.held - {worker});
    forall k | k in f1.outbox.deliveries ensures SoundAt(f1, k) {
      assert SoundAt(f, k);
    }
    forall w | w in f1.held ensures SoundHold(f1, w) {
      assert SoundHold(f, w);
    }
  }

  lemma RetryKeeps(f: Fleet, sensitive: string -> bool, key: DeliveryKey, now: nat)
    requires Sound(f)
    ensures Sound(Next(f, sensitive, Retry(key, now)))
  {
    var tx := RetryDead(f.outbox, key, now);
    if tx.reply.Returned? {
      assert SoundAt(f, key);
      RowKeeps(f, key, tx.reply.value, f.held, f.reclaims[key := 0]);
    }
  }

  lemma NextKeeps(f: Fleet, sensitive: string -> bool, move: Move)
    requires Sound(f)
    ensures Sound(Next(f, sensitive, move))
  {
    match move
    case Fill(log, endpoint, now) => FillKeeps(f, sensitive, log, endpoint, now);
    case Claim(worker, lease, now) => ClaimKeeps(f, worker, lease, now);
    case Crash(worker) => DropKeeps(f, worker);
    case Retry(key, now) => RetryKeeps(f, sensitive, key, now);
    case _ => FinishKeeps(f, sensitive, move);
  }

  lemma {:induction false} ReachedIsSound(sensitive: string -> bool, moves: seq<Move>)
    ensures Sound(Reached(sensitive, moves))
  {
    if moves != [] {
      ReachedIsSound(sensitive, moves[..|moves| - 1]);
      NextKeeps(Reached(sensitive, moves[..|moves| - 1]), sensitive, moves[|moves| - 1]);
      hide Next, Sound;
    }
  }

  // ---------- the promises ----------

  /** In every reachable state: under way means owned and leased, and attempts stay within the maximum plus the leases lost. */
  lemma AttemptsAreBounded(sensitive: string -> bool, moves: seq<Move>, key: DeliveryKey)
    requires key in Reached(sensitive, moves).outbox.deliveries
    ensures var f := Reached(sensitive, moves);
            var d := f.outbox.deliveries[key];
            && (d.status == Delivering <==> d.owner.Some?) && (d.owner.Some? <==> d.lease.Some?)
            && key.endpointId in f.outbox.endpoints
            && d.attempts <= f.outbox.endpoints[key.endpointId].config.maxAttempts + ReclaimsOf(f, key)
  {
    ReachedIsSound(sensitive, moves);
    hide Reached;
    assert SoundAt(Reached(sensitive, moves), key);
  }

  /** Only the worker that owns a delivery finishes it, and only on its latest claim. */
  lemma OnlyTheOwnerFinishes(sensitive: string -> bool, moves: seq<Move>, move: Move, key: DeliveryKey)
    requires var f := Reached(sensitive, moves);
             && key in f.outbox.deliveries && f.outbox.deliveries[key].status !in {Delivered, Dead}
             && key in Next(f, sensitive, move).outbox.deliveries
             && Next(f, sensitive, move).outbox.deliveries[key].status in {Delivered, Dead}
    ensures move.Deliver? || move.Fail?
    ensures var f := Reached(sensitive, moves);
            && move.worker in f.held && f.held[move.worker].key == key
            && f.outbox.deliveries[key].status == Delivering && f.outbox.deliveries[key].owner == Some(move.worker)
            && f.outbox.deliveries[key].attempts == f.held[move.worker].attempts
  {
    ReachedIsSound(sensitive, moves);
    hide Reached, Backoff, FirstDue, Passes.Turn;
    var f := Reached(sensitive, moves);
    if move.Fill? {
      FillAdds(f.outbox, move.log, move.endpoint, sensitive, move.now);
    } else if move.Claim? && ClaimDue(f.outbox, move.lease, move.worker, move.now).reply.Returned? {
      ClaimEffect(f.outbox, move.lease, move.worker, move.now, key);
      hide ClaimDue;
    } else if move.Deliver? || move.Fail? {
      assert SoundHold(f, move.worker);
    }
  }

  /** A delivered row is never touched again. */
  lemma DeliveredStays(f: Fleet, sensitive: string -> bool, move: Move, key: DeliveryKey)
    requires key in f.outbox.deliveries && f.outbox.deliveries[key].status == Delivered
    ensures var after := Next(f, sensitive, move).outbox.deliveries;
            key in after && after[key] == f.outbox.deliveries[key]
  {
    hide Backoff, FirstDue, Passes.Turn;
    if move.Fill? {
      FillAdds(f.outbox, move.log, move.endpoint, sensitive, move.now);
    }
  }

  lemma {:induction false} DeliveredIsFinal(sensitive: string -> bool, moves: seq<Move>, n: nat, key: DeliveryKey)
    requires n <= |moves|
    requires key in Reached(sensitive, moves[..n]).outbox.deliveries
    requires Reached(sensitive, moves[..n]).outbox.deliveries[key].status == Delivered
    ensures key in Reached(sensitive, moves).outbox.deliveries
    ensures Reached(sensitive, moves).outbox.deliveries[key] == Reached(sensitive, moves[..n]).outbox.deliveries[key]
  {
    if n == |moves| {
      assert moves[..n] == moves;
    } else {
      var shorter := moves[..|moves| - 1];
      assert shorter[..n] == moves[..n];
      DeliveredIsFinal(sensitive, shorter, n, key);
      DeliveredStays(Reached(sensitive, shorter), sensitive, moves[|moves| - 1], key);
      hide Next;
    }
  }

  lemma ClaimOfOnlyDelivery(o: Outbox, key: DeliveryKey, lease: Tries, worker: string, now: nat)
    requires o.deliveries.Keys == {key} && !Blank(worker)
    requires Due(o.deliveries[key], now) || Abandoned(o.deliveries[key], now)
    ensures var tx := ClaimDue(o, lease, worker, now);
            var d := o.deliveries[key];
            && tx.reply == Returned(Some(Claimed(key, d.body, d.attempts + 1)))
            && tx.outbox.endpoints == o.endpoints && tx.outbox.deliveries.Keys == {key}
            && tx.outbox.deliveries[key].attempts == d.attempts + 1
            && tx.outbox.deliveries[key].status == Delivering && tx.outbox.deliveries[key].lease == Some(now + lease)
  {
    var rows := Reclaimed(o.deliveries, now);
    assert rows.Keys == {key} && Due(rows[key], now);
    assert FirstDue(rows, now) == Some(key);
    hide FirstDue;
  }

  /** The maximum alone is no bound: a worker that lets its lease run out hands its delivery on for one more attempt. */
  lemma AttemptsCanExceedMaximum(entry: Entry, endpoint: Endpoint, sensitive: string -> bool)
    requires entry.receipt.sequence == 1 && entry.receipt.event in endpoint.events - {PauseBlocked, LimitBlocked}
    requires endpoint.maxAttempts == 1 && !endpoint.fromLatest
    ensures var f := Reached(sensitive, [Fill([entry], endpoint, 0), Claim("a", 1, 0), Claim("b", 1, 1)]);
            var key := DeliveryKey(endpoint.id, 1);
            && key in f.outbox.deliveries && f.outbox.deliveries[key].attempts == 2
            && endpoint.id in f.outbox.endpoints && f.outbox.endpoints[endpoint.id].config.maxAttempts == 1
  {
    var key := DeliveryKey(endpoint.id, 1);
    var fill, first, second := Fill([entry], endpoint, 0), Claim("a", 1, 0), Claim("b", 1, 1);
    ReachedThree(sensitive, fill, first, second);
    OnlyDelivery(entry, endpoint, sensitive);
    assert !Blank("a") && !Blank("b") by {
      assert !IsSpace("a"[0]) && !IsSpace("b"[0]);
    }
    var f1 := Next(START, sensitive, fill);
    assert f1 == START.(outbox := Passes.Turn(START.outbox, [entry], endpoint, sensitive, 0).outbox);
    hide Reached, Passes.Turn, ClaimDue, Claiming, Blank;
    ClaimByOther(f1, sensitive, key, "a", 0);
    ClaimByOther(Next(f1, sensitive, first), sensitive, key, "b", 1);
  }

  lemma ClaimByOther(f: Fleet, sensitive: string -> bool, key: DeliveryKey, worker: string, now: nat)
    requires f.outbox.deliveries.Keys == {key} && worker !in f.held && !Blank(worker)
    requires Due(f.outbox.deliveries[key], now) || Abandoned(f.outbox.deliveries[key], now)
    ensures var f1 := Next(f, sensitive, Claim(worker, 1, now));
            && f1.outbox.endpoints == f.outbox.endpoints && f1.outbox.deliveries.Keys == {key}
            && f1.held.Keys == f.held.Keys + {worker}
            && f1.outbox.deliveries[key].attempts == f.outbox.deliveries[key].attempts + 1
            && Abandoned(f1.outbox.deliveries[key], now + 1)
  {
    ClaimOfOnlyDelivery(f.outbox, key, 1, worker, now);
    hide ClaimDue;
  }

  lemma OnlyItem(entry: Entry, endpoint: Endpoint, sensitive: string -> bool) returns (item: Item)
    requires entry.receipt.sequence == 1 && entry.receipt.event in endpoint.events - {PauseBlocked, LimitBlocked}
    ensures OutboxSync.Select([entry], 1, 0, endpoint, sensitive) == Some([item])
    ensures item.sequence == 1 && item.event == entry.receipt.event
  {
    var body := BuildBody(entry, endpoint, sensitive);
    assert body.Some?;
    item := Item(1, entry.receipt.event, body.value);
    assert OutboxSync.Select([entry], 0, 0, endpoint, sensitive) == Some([]);
    assert [] + [item] == [item];
  }

  lemma OnlyInsertion(endpoint: Endpoint, item: Item)
    requires item.sequence == 1 && item.event in endpoint.events
    ensures Insert(map[], endpoint, 0, [item], 0) == map[DeliveryKey(endpoint.id, 1) := NewDelivery(item, 0)]
  {
    hide NewDelivery;
    assert [item][..0] == [] && Insert(map[], endpoint, 0, [item][..0], 0) == map[];
  }

  lemma OnlyDelivery(entry: Entry, endpoint: Endpoint, sensitive: string -> bool)
    requires entry.receipt.sequence == 1 && entry.receipt.event in endpoint.events - {PauseBlocked, LimitBlocked} && !endpoint.fromLatest
    ensures var o := Passes.Turn(START.outbox, [entry], endpoint, sensitive, 0).outbox;
            var key := DeliveryKey(endpoint.id, 1);
            && o.deliveries.Keys == {key} && Due(o.deliveries[key], 0) && o.deliveries[key].attempts == 0
            && o.endpoints.Keys == {endpoint.id} && o.endpoints[endpoint.id].config == endpoint
  {
    hide OutboxSync.Select, Insert, Inserted;
    var item := OnlyItem(entry, endpoint, sensitive);
    OnlyInsertion(endpoint, item);
  }

  lemma ReachedThree(sensitive: string -> bool, a: Move, b: Move, c: Move)
    ensures Reached(sensitive, [a, b, c]) == Next(Next(Next(START, sensitive, a), sensitive, b), sensitive, c)
  {
    hide Next;
    assert [a, b, c][..2] == [a, b] && [a, b][..1] == [a] && [a][..0] == [];
    assert Reached(sensitive, [a]) == Next(START, sensitive, a);
    assert Reached(sensitive, [a, b]) == Next(Reached(sensitive, [a]), sensitive, b);
  }
}
