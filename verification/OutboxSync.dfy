/**
 * Any number of webhook workers copy a growing receipt log into one outbox. A worker reads a prefix of the
 * log, registers an endpoint, selects what the endpoint lacks and enqueues it; it may stop between any two
 * steps, and others may act in between.
 */
module OutboxSync {
  import opened Basics
  import opened RuntimeModels
  import opened Deliveries
  import LifeWords
  import TableOrder

  /** Bodies for the wanted entries among the first `seen`; none at all if building one raises. */
  function Select(log: seq<Entry>, seen: nat, checkpoint: nat, endpoint: Endpoint,
                  sensitive: string -> bool): Option<seq<Item>>
    requires seen <= |log|
  {
    if seen == 0 then Some([])
    else
      var before := Select(log, seen - 1, checkpoint, endpoint, sensitive);
      var receipt := log[seen - 1].receipt;
      if before.None? || !Wanted(endpoint, checkpoint, receipt.sequence, receipt.event) then before
      else
        var body := BuildBody(log[seen - 1], endpoint, sensitive);
        if body.None? then None else Some(before.value + [Item(receipt.sequence, receipt.event, body.value)])
  }

  datatype Worker =
    | Idle
    | Polling(endpoints: seq<Endpoint>, seen: nat)
    | Selected(endpoints: seq<Endpoint>, seen: nat, checkpoint: nat, items: seq<Item>)

  /** `starts` remembers where each endpoint's deliveries begin; the database does not store it. */
  datatype Machine = Machine(log: seq<Entry>, outbox: Outbox, starts: map<string, nat>, workers: map<nat, Worker>)

  datatype Move =
    | Append(entry: Entry)
    | Poll(worker: nat, endpoints: seq<Endpoint>)
    | RegisterNext(worker: nat)
    | EnqueueNext(worker: nat, now: nat)
    | Stop(worker: nat)
    | Claim(lease: nat, name: string, now: nat)
    | Deliver(key: DeliveryKey, name: string, statusCode: int, now: nat)
    | Fail(claimed: Claimed, name: string, endpoint: Endpoint, code: Option<int>, error: string, now: nat)
    | Retry(key: DeliveryKey, now: nat)

  function WorkerAt(m: Machine, w: nat): Worker {
    if w in m.workers then m.workers[w] else Idle
  }

  /** Registration: the first one fixes where the endpoint starts. A mismatch or an unbuildable body stops the pass. */
  function Registering(m: Machine, w: nat, sensitive: string -> bool): Machine {
    var worker := WorkerAt(m, w);
    if !worker.Polling? || worker.endpoints == [] || worker.seen > |m.log| then m.(workers := m.workers[w := Idle])
    else
      var endpoint := worker.endpoints[0];
      var tx := Register(m.outbox, endpoint, worker.seen);
      if tx.reply.Raised? then m.(workers := m.workers[w := Idle])
      else
        var items := Select(m.log, worker.seen, tx.reply.value, endpoint, sensitive);
        Machine(m.log, tx.outbox,
                if endpoint.id in m.outbox.endpoints then m.starts else m.starts[endpoint.id := tx.reply.value],
                m.workers[w := if items.None? then Idle else Selected(worker.endpoints, worker.seen, tx.reply.value, items.value)])
  }

  function Enqueuing(m: Machine, w: nat, now: nat): Machine {
    var worker := WorkerAt(m, w);
    if !worker.Selected? || worker.endpoints == [] then m
    else
      var tx := Enqueue(m.outbox, worker.endpoints[0], worker.items, worker.seen, now);
      m.(outbox := tx.outbox,
         workers := m.workers[w := if tx.reply.Raised? then Idle else Polling(worker.endpoints[1..], worker.seen)])
  }

  function Next(m: Machine, sensitive: string -> bool, move: Move): Machine {
    match move
    case Append(entry) => if entry.receipt.sequence == |m.log| + 1 then m.(log := m.log + [entry]) else m
    case Poll(w, endpoints) => m.(workers := m.workers[w := Polling(endpoints, |m.log|)])
    case RegisterNext(w) => Registering(m, w, sensitive)
    case EnqueueNext(w, now) => Enqueuing(m, w, now)
    case Stop(w) => m.(workers := m.workers[w := Idle])
    case Claim(lease, name, now) => m.(outbox := ClaimDue(m.outbox, lease, name, now).outbox)
    case Deliver(key, name, statusCode, now) => m.(outbox := MarkDelivered(m.outbox, key, name, statusCode, now).outbox)
    case Fail(claimed, name, endpoint, code, error, now) => m.(outbox := MarkFailed(m.outbox, claimed, name, endpoint, code, error, now).outbox)
    case Retry(key, now) => m.(outbox := RetryDead(m.outbox, key, now).outbox)
  }

  const FRESH := Machine([], Outbox(map[], map[]), map[], map[])

  function Reached(sensitive: string -> bool, moves: seq<Move>): Machine {
    if moves == [] then FRESH else Next(Reached(sensitive, moves[..|moves| - 1]), sensitive, moves[|moves| - 1])
  }

  // ---------- what is selected and inserted ----------

  predicate NumberedLog(log: seq<Entry>) {
    forall i | 0 <= i < |log| :: log[i].receipt.sequence == i + 1
  }

  /** Receipt `s` lies past `after`, no further than `upTo`, and its event is subscribed. */
  predicate Subscribed(log: seq<Entry>, endpoint: Endpoint, after: nat, upTo: nat, s: nat)
    requires upTo <= |log|
  {
    after < s <= upTo && log[s - 1].receipt.event in endpoint.events
  }

  /** Selected items are the subscribed entries in the prefix past the checkpoint, each with its own body. */
  lemma {:induction false} SelectExact(log: seq<Entry>, seen: nat, checkpoint: nat, endpoint: Endpoint,
                                       sensitive: string -> bool)
    requires NumberedLog(log) && seen <= |log|
    ensures var items := Select(log, seen, checkpoint, endpoint, sensitive);
            && (items.Some?
                <==> forall s: nat | Subscribed(log, endpoint, checkpoint, seen, s) ::
                       BuildBody(log[s - 1], endpoint, sensitive).Some?)
            && (items.Some? ==>
                  && (forall item <- items.value ::
                        && Subscribed(log, endpoint, checkpoint, seen, item.sequence)
                        && item.event == log[item.sequence - 1].receipt.event
                        && BuildBody(log[item.sequence - 1], endpoint, sensitive) == Some(item.body))
                  && (forall s: nat | Subscribed(log, endpoint, checkpoint, seen, s) :: exists item <- items.value :: item.sequence == s))
  {
    if seen > 0 {
      hide BuildBody;
      SelectExact(log, seen - 1, checkpoint, endpoint, sensitive);
      var before := Select(log, seen - 1, checkpoint, endpoint, sensitive);
      var items := Select(log, seen, checkpoint, endpoint, sensitive);
      var last := Wanted(endpoint, checkpoint, seen, log[seen - 1].receipt.event);
      forall s: nat ensures Subscribed(log, endpoint, checkpoint, seen, s)
                       <==> Subscribed(log, endpoint, checkpoint, seen - 1, s) || (s == seen && last) {}
      assert items.Some? <==> before.Some? && (last ==> BuildBody(log[seen - 1], endpoint, sensitive).Some?);
      if items.None? {
        var s: nat := if before.None? then
          var t: nat :| Subscribed(log, endpoint, checkpoint, seen - 1, t) && BuildBody(log[t - 1], endpoint, sensitive).None?; t
        else seen;
        assert Subscribed(log, endpoint, checkpoint, seen, s) && BuildBody(log[s - 1], endpoint, sensitive).None?;
      }
      if items.Some? {
        forall s: nat | Subscribed(log, endpoint, checkpoint, seen, s) ensures exists item <- items.value :: item.sequence == s {
          if Subscribed(log, endpoint, checkpoint, seen - 1, s) {
            var item :| item in before.value && item.sequence == s;
            assert item in items.value;
          } else {
            assert items.value[|items.value| - 1].sequence == s;
          }
        }
      }
    }
  }

  lemma {:induction false} SelectReadsPrefix(log: seq<Entry>, entry: Entry, seen: nat, checkpoint: nat,
                                             endpoint: Endpoint, sensitive: string -> bool)
    requires seen <= |log|
    ensures Select(log + [entry], seen, checkpoint, endpoint, sensitive) == Select(log, seen, checkpoint, endpoint, sensitive)
  {
    if seen > 0 {
      hide BuildBody;
      SelectReadsPrefix(log, entry, seen - 1, checkpoint, endpoint, sensitive);
    }
  }

  /** Inserting keeps every old row and adds a fresh one for every wanted item that had none. */
  lemma {:induction false} InsertExact(rows: map<DeliveryKey, Delivery>, endpoint: Endpoint, checkpoint: nat,
                                       items: seq<Item>, now: nat)
    ensures var after := Insert(rows, endpoint, checkpoint, items, now);
            && (forall key | key in rows :: key in after && after[key] == rows[key])
            && (forall key | key in after && key !in rows ::
                  key.endpointId == endpoint.id
                  && exists item <- items :: item.sequence == key.sequence && Wanted(endpoint, checkpoint, item.sequence, item.event)
                                             && after[key] == NewDelivery(item, now))
            && (forall item <- items | Wanted(endpoint, checkpoint, item.sequence, item.event) ::
                  DeliveryKey(endpoint.id, item.sequence) in after)
  {
    if items != [] {
      var n := |items| - 1;
      InsertExact(rows, endpoint, checkpoint, items[..n], now);
      assert items[n] in items;
      assert forall item <- items[..n] :: item in items;
      assert items == items[..n] + [items[n]];
    }
  }

  // ---------- the invariant ----------

  /** Exactly the subscribed receipts between start and checkpoint have a delivery, carrying their own body. */
  ghost predicate Complete(m: Machine, id: string, sensitive: string -> bool)
    requires id in m.outbox.endpoints && id in m.starts
  {
    var row := m.outbox.endpoints[id];
    && m.starts[id] <= row.checkpoint <= |m.log|
    && (forall s: nat :: DeliveryKey(id, s) in m.outbox.deliveries <==> Subscribed(m.log, row.config, m.starts[id], row.checkpoint, s))
    && (forall s: nat | DeliveryKey(id, s) in m.outbox.deliveries ::
          var d := m.outbox.deliveries[DeliveryKey(id, s)];
          d.event == m.log[s - 1].receipt.event && BuildBody(m.log[s - 1], row.config, sensitive) == Some(d.body))
  }

  ghost predicate SoundWorker(m: Machine, worker: Worker, sensitive: string -> bool) {
    match worker
    case Idle => true
    case Polling(_, seen) => seen <= |m.log|
    case Selected(endpoints, seen, checkpoint, items) =>
      && endpoints != [] && seen <= |m.log|
      && endpoints[0].id in m.outbox.endpoints && endpoints[0].id in m.starts
      && m.outbox.endpoints[endpoints[0].id].config == endpoints[0]
      && m.starts[endpoints[0].id] <= checkpoint <= m.outbox.endpoints[endpoints[0].id].checkpoint
      && Select(m.log, seen, checkpoint, endpoints[0], sensitive) == Some(items)
  }

  ghost predicate Sound(m: Machine, sensitive: string -> bool) {
    && NumberedLog(m.log)
    && (forall id | id in m.outbox.endpoints :: id in m.starts && m.outbox.endpoints[id].config.id == id && Complete(m, id, sensitive))
    && (forall key | key in m.outbox.deliveries :: key.endpointId in m.outbox.endpoints)
    && (forall w | w in m.workers :: SoundWorker(m, m.workers[w], sensitive))
  }

  /** Delivering changes neither endpoints nor which deliveries exist nor what they say. */
  predicate SameContents(a: Outbox, b: Outbox) {
    && a.endpoints == b.endpoints && a.deliveries.Keys == b.deliveries.Keys
    && forall key | key in a.deliveries :: a.deliveries[key].event == b.deliveries[key].event && a.deliveries[key].body == b.deliveries[key].body
  }

  lemma ClaimKeepsContents(o: Outbox, lease: nat, name: string, now: nat)
    ensures SameContents(o, ClaimDue(o, lease, name, now).outbox)
  {
    hide FirstDue;
  }

  lemma MarkKeepsContents(o: Outbox, key: DeliveryKey, name: string, code: int, now: nat)
    ensures SameContents(o, MarkDelivered(o, key, name, code, now).outbox)
    ensures SameContents(o, RetryDead(o, key, now).outbox)
  {
  }

  lemma FailKeepsContents(o: Outbox, claimed: Claimed, name: string, endpoint: Endpoint, code: Option<int>,
                          error: string, now: nat)
    ensures SameContents(o, MarkFailed(o, claimed, name, endpoint, code, error, now).outbox)
  {
    hide Backoff;
  }

  lemma SameContentsSound(m: Machine, sensitive: string -> bool, o: Outbox)
    requires Sound(m, sensitive) && SameContents(m.outbox, o)
    ensures Sound(m.(outbox := o), sensitive)
  {
    hide Select, BuildBody, Subscribed;
    var m1 := m.(outbox := o);
    forall id | id in o.endpoints ensures Complete(m1, id, sensitive) {
      assert Complete(m, id, sensitive);
    }
    forall w | w in m.workers ensures SoundWorker(m1, m.workers[w], sensitive) {
      assert SoundWorker(m, m.workers[w], sensitive);
    }
  }

  lemma AppendKeeps(m: Machine, sensitive: string -> bool, entry: Entry)
    requires Sound(m, sensitive) && entry.receipt.sequence == |m.log| + 1
    ensures Sound(m.(log := m.log + [entry]), sensitive)
  {
    hide Select, BuildBody;
    var m1 := m.(log := m.log + [entry]);
    forall id | id in m1.outbox.endpoints ensures Complete(m1, id, sensitive) {
      assert Complete(m, id, sensitive);
      assert m1.log[..m.outbox.endpoints[id].checkpoint] == m.log[..m.outbox.endpoints[id].checkpoint];
    }
    forall w | w in m1.workers ensures SoundWorker(m1, m1.workers[w], sensitive) {
      assert SoundWorker(m, m.workers[w], sensitive);
      if m.workers[w].Selected? {
        SelectReadsPrefix(m.log, entry, m.workers[w].seen, m.workers[w].checkpoint, m.workers[w].endpoints[0], sensitive);
      }
    }
  }

  lemma WorkerSetKeeps(m: Machine, sensitive: string -> bool, w: nat, worker: Worker)
    requires Sound(m, sensitive) && SoundWorker(m, worker, sensitive)
    ensures Sound(m.(workers := m.workers[w := worker]), sensitive)
  {
    hide Select, BuildBody, Subscribed;
    var m1 := m.(workers := m.workers[w := worker]);
    forall id | id in m1.outbox.endpoints ensures Complete(m1, id, sensitive) {
      assert Complete(m, id, sensitive);
    }
    forall v | v in m1.workers ensures SoundWorker(m1, m1.workers[v], sensitive) {
      assert v != w ==> SoundWorker(m, m.workers[v], sensitive);
      assert SoundWorker(m1, worker, sensitive) <==> SoundWorker(m, worker, sensitive);
    }
  }

  /** A first registration opens an empty range at its start. */
  lemma NewEndpointKeeps(m: Machine, sensitive: string -> bool, endpoint: Endpoint, start: nat)
    requires Sound(m, sensitive) && endpoint.id !in m.outbox.endpoints && start <= |m.log|
    ensures Sound(m.(outbox := m.outbox.(endpoints := m.outbox.endpoints[endpoint.id := Registered(endpoint, start)]),
                     starts := m.starts[endpoint.id := start]), sensitive)
  {
    hide Select, BuildBody;
    var m1 := m.(outbox := m.outbox.(endpoints := m.outbox.endpoints[endpoint.id := Registered(endpoint, start)]),
                 starts := m.starts[endpoint.id := start]);
    forall id | id in m1.outbox.endpoints ensures Complete(m1, id, sensitive) {
      if id == endpoint.id {
        forall s: nat ensures DeliveryKey(id, s) !in m1.outbox.deliveries {
          assert DeliveryKey(id, s).endpointId !in m.outbox.endpoints;
        }
      } else {
        assert Complete(m, id, sensitive);
      }
    }
    forall v | v in m1.workers ensures SoundWorker(m1, m1.workers[v], sensitive) {
      assert SoundWorker(m, m.workers[v], sensitive);
    }
  }

  lemma RegisterKeeps(m: Machine, sensitive: string -> bool, w: nat)
    requires Sound(m, sensitive)
    ensures Sound(Registering(m, w, sensitive), sensitive)
  {
    hide Sound, Complete, Select, BuildBody;
    var worker := WorkerAt(m, w);
    WorkerSetKeeps(m, sensitive, w, Idle);
    if worker.Polling? && worker.endpoints != [] && worker.seen <= |m.log| {
      var endpoint := worker.endpoints[0];
      var tx := Register(m.outbox, endpoint, worker.seen);
      if tx.reply.Returned? {
        var m1 := m;
        if endpoint.id !in m.outbox.endpoints {
          NewEndpointKeeps(m, sensitive, endpoint, tx.reply.value);
          m1 := m.(outbox := tx.outbox, starts := m.starts[endpoint.id := tx.reply.value]);
        }
        EndpointFacts(m1, sensitive, endpoint.id);
        var items := Select(m.log, worker.seen, tx.reply.value, endpoint, sensitive);
        WorkerSetKeeps(m1, sensitive, w, if items.None? then Idle else Selected(worker.endpoints, worker.seen, tx.reply.value, items.value));
      }
    }
  }

  lemma EndpointFacts(m: Machine, sensitive: string -> bool, id: string)
    requires Sound(m, sensitive) && id in m.outbox.endpoints
    ensures id in m.starts && Complete(m, id, sensitive) && m.outbox.endpoints[id].config.id == id
    ensures m.starts[id] <= m.outbox.endpoints[id].checkpoint <= |m.log|
  {
  }

  /** One receipt's place in the selection, and the row it then gets. */
  lemma SelectedAt(log: seq<Entry>, rows: map<DeliveryKey, Delivery>, endpoint: Endpoint, current: nat, seen: nat,
                   checkpoint: nat,
                   items: seq<Item>, sensitive: string -> bool, now: nat, s: nat)
    requires NumberedLog(log) && seen <= |log| && checkpoint <= current
    requires Select(log, seen, checkpoint, endpoint, sensitive) == Some(items)
    ensures var after := Insert(rows, endpoint, current, items, now);
            var key := DeliveryKey(endpoint.id, s);
            && (key in after <==> key in rows || Subscribed(log, endpoint, current, seen, s))
            && (key in rows ==> after[key] == rows[key])
            && (key in after && key !in rows ==>
                  && after[key].event == log[s - 1].receipt.event
                  && BuildBody(log[s - 1], endpoint, sensitive) == Some(after[key].body))
  {
    hide Select, BuildBody, Insert;
    var after := Insert(rows, endpoint, current, items, now);
    var key := DeliveryKey(endpoint.id, s);
    SelectExact(log, seen, checkpoint, endpoint, sensitive);
    InsertExact(rows, endpoint, current, items, now);
    if Subscribed(log, endpoint, current, seen, s) {
      assert Subscribed(log, endpoint, checkpoint, seen, s);
      var item :| item in items && item.sequence == s;
      assert Wanted(endpoint, current, item.sequence, item.event);
    }
    if key in after && key !in rows {
      var item :|
        && item in items && item.sequence == s && Wanted(endpoint, current, item.sequence, item.event)
        && after[key] == NewDelivery(item, now);
      assert Subscribed(log, endpoint, checkpoint, seen, item.sequence);
    }
  }

  /** Enqueuing a selection fills the range up to what the worker saw, however far others got meanwhile. */
  lemma EnqueueCompletes(m: Machine, sensitive: string -> bool, id: string, seen: nat, checkpoint: nat,
                         items: seq<Item>, now: nat)
    requires NumberedLog(m.log) && id in m.outbox.endpoints && id in m.starts && m.outbox.endpoints[id].config.id == id
    requires Complete(m, id, sensitive) && seen <= |m.log|
    requires m.starts[id] <= checkpoint <= m.outbox.endpoints[id].checkpoint
    requires Select(m.log, seen, checkpoint, m.outbox.endpoints[id].config, sensitive) == Some(items)
    ensures Complete(m.(outbox := Enqueue(m.outbox, m.outbox.endpoints[id].config, items, seen, now).outbox), id, sensitive)
  {
    hide Select, BuildBody, Insert, Inserted;
    var row := m.outbox.endpoints[id];
    forall s: nat {
      SelectedAt(m.log, m.outbox.deliveries, row.config, row.checkpoint, seen, checkpoint, items, sensitive, now, s);
    }
  }

  lemma EnqueueKeeps(m: Machine, sensitive: string -> bool, w: nat, now: nat)
    requires Sound(m, sensitive)
    ensures Sound(Enqueuing(m, w, now), sensitive)
  {
    hide Select, BuildBody, Subscribed, Insert, Inserted;
    var worker := WorkerAt(m, w);
    if worker.Selected? {
      assert SoundWorker(m, worker, sensitive);
      var endpoint := worker.endpoints[0];
      var id := endpoint.id;
      var row := m.outbox.endpoints[id];
      var m1 := m.(outbox := Enqueue(m.outbox, endpoint, worker.items, worker.seen, now).outbox);
      EnqueueCompletes(m, sensitive, id, worker.seen, worker.checkpoint, worker.items, now);
      InsertExact(m.outbox.deliveries, endpoint, row.checkpoint, worker.items, now);
      forall other | other in m1.outbox.endpoints && other != id ensures Complete(m1, other, sensitive) {
        assert Complete(m, other, sensitive);
        assert forall s: nat :: DeliveryKey(other, s) in m1.outbox.deliveries <==> DeliveryKey(other, s) in m.outbox.deliveries;
      }
      forall v | v in m1.workers ensures SoundWorker(m1, m1.workers[v], sensitive) {
        assert SoundWorker(m, m.workers[v], sensitive);
      }
      assert Sound(m1, sensitive);
      WorkerSetKeeps(m1, sensitive, w, Polling(worker.endpoints[1..], worker.seen));
    }
  }

  lemma NextKeeps(m: Machine, sensitive: string -> bool, move: Move)
    requires Sound(m, sensitive)
    ensures Sound(Next(m, sensitive, move), sensitive)
  {
    hide Sound, Registering, Enqueuing, ClaimDue, MarkDelivered, MarkFailed, RetryDead;
    match move
    case Append(entry) => if entry.receipt.sequence == |m.log| + 1 { AppendKeeps(m, sensitive, entry); }
    case Poll(w, endpoints) => WorkerSetKeeps(m, sensitive, w, Polling(endpoints, |m.log|));
    case RegisterNext(w) => RegisterKeeps(m, sensitive, w);
    case EnqueueNext(w, now) => EnqueueKeeps(m, sensitive, w, now);
    case Stop(w) => WorkerSetKeeps(m, sensitive, w, Idle);
    case Claim(lease, name, now) =>
      ClaimKeepsContents(m.outbox, lease, name, now);
      SameContentsSound(m, sensitive, ClaimDue(m.outbox, lease, name, now).outbox);
    case Deliver(key, name, statusCode, now) =>
      MarkKeepsContents(m.outbox, key, name, statusCode, now);
      SameContentsSound(m, sensitive, MarkDelivered(m.outbox, key, name, statusCode, now).outbox);
    case Fail(claimed, name, endpoint, code, error, now) =>
      FailKeepsContents(m.outbox, claimed, name, endpoint, code, error, now);
      SameContentsSound(m, sensitive, MarkFailed(m.outbox, claimed, name, endpoint, code, error, now).outbox);
    case Retry(key, now) =>
      MarkKeepsContents(m.outbox, key, "", 0, now);
      SameContentsSound(m, sensitive, RetryDead(m.outbox, key, now).outbox);
  }

  lemma {:induction false} ReachedIsSound(sensitive: string -> bool, moves: seq<Move>)
    ensures Sound(Reached(sensitive, moves), sensitive)
  {
    if moves != [] {
      ReachedIsSound(sensitive, moves[..|moves| - 1]);
      hide Sound, Next;
      NextKeeps(Reached(sensitive, moves[..|moves| - 1]), sensitive, moves[|moves| - 1]);
    }
  }

  // ---------- the promises ----------

  /**
   * However workers interleave and stop, an endpoint has exactly one delivery for every subscribed receipt between
   * its start and its checkpoint, with the body of that receipt, and none outside.
   */
  lemma OutboxIsComplete(sensitive: string -> bool, moves: seq<Move>, id: string, s: nat)
    requires id in Reached(sensitive, moves).outbox.endpoints
    ensures var m := Reached(sensitive, moves);
            var row := m.outbox.endpoints[id];
            && id in m.starts && m.starts[id] <= row.checkpoint <= |m.log|
            && (DeliveryKey(id, s) in m.outbox.deliveries
                <==> m.starts[id] < s <= row.checkpoint && m.log[s - 1].receipt.event in row.config.events)
            && (DeliveryKey(id, s) in m.outbox.deliveries ==>
                  BuildBody(m.log[s - 1], row.config, sensitive) == Some(m.outbox.deliveries[DeliveryKey(id, s)].body))
  {
    ReachedIsSound(sensitive, moves);
    hide Reached, BuildBody, Select;
    EndpointFacts(Reached(sensitive, moves), sensitive, id);
  }

  /** Endpoints stay registered as they were, their start is fixed, and checkpoints never go back. */
  predicate Onward(a: Machine, b: Machine) {
    && a.log <= b.log
    && forall id | id in a.outbox.endpoints ::
         && id in b.outbox.endpoints && b.outbox.endpoints[id].config == a.outbox.endpoints[id].config
         && a.outbox.endpoints[id].checkpoint <= b.outbox.endpoints[id].checkpoint
         && (id in a.starts ==> id in b.starts && b.starts[id] == a.starts[id])
  }

  lemma NextGoesOnward(m: Machine, sensitive: string -> bool, move: Move)
    ensures Onward(m, Next(m, sensitive, move))
  {
    hide Select, BuildBody, Insert, Inserted, FirstDue;
  }

  lemma {:induction false} CheckpointsNeverGoBack(sensitive: string -> bool, moves: seq<Move>, n: nat)
    requires n <= |moves|
    ensures Onward(Reached(sensitive, moves[..n]), Reached(sensitive, moves))
  {
    if n == |moves| {
      assert moves[..n] == moves;
    } else {
      var shorter := moves[..|moves| - 1];
      assert shorter[..n] == moves[..n];
      CheckpointsNeverGoBack(sensitive, shorter, n);
      NextGoesOnward(Reached(sensitive, shorter), sensitive, moves[|moves| - 1]);
      hide Next;
    }
  }

  /**
   * A subscribed receipt without a status stops its endpoint for good: if one lies past the start, no run ever moves
   * the checkpoint to it.
   */
  lemma UnlabelledReceiptStopsEndpoint(sensitive: string -> bool, moves: seq<Move>, id: string, s: nat)
    requires var m := Reached(sensitive, moves);
             && id in m.outbox.endpoints && id in m.starts && m.starts[id] < s <= |m.log|
             && m.log[s - 1].receipt.event in m.outbox.endpoints[id].config.events
             && LifeWords.EventStatus(m.log[s - 1].receipt.event).None?
    ensures Reached(sensitive, moves).outbox.endpoints[id].checkpoint < s
  {
    OutboxIsComplete(sensitive, moves, id, s);
  }

  /** A pass whose endpoint meets no such receipt past its checkpoint selects, and reaches everything it saw. */
  lemma SelectionSucceedsExactly(log: seq<Entry>, seen: nat, checkpoint: nat, endpoint: Endpoint,
                                 sensitive: string -> bool)
    requires NumberedLog(log) && seen <= |log|
    ensures Select(log, seen, checkpoint, endpoint, sensitive).Some?
       <==> forall s: nat | Subscribed(log, endpoint, checkpoint, seen, s) :: log[s - 1].receipt.event !in {PauseBlocked, LimitBlocked}
  {
    SelectExact(log, seen, checkpoint, endpoint, sensitive);
    forall s: nat | Subscribed(log, endpoint, checkpoint, seen, s)
      ensures BuildBody(log[s - 1], endpoint, sensitive).Some? <==> log[s - 1].receipt.event !in {PauseBlocked, LimitBlocked} {}
    hide BuildBody;
  }
}
