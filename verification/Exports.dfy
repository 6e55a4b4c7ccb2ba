/** What leaves the system in a webhook: the receipt, the identity of its action, and the redacted arguments. */
module Exports {
  import opened Basics
  import opened JsonValues
  import opened PathValues
  import opened RuntimeModels
  import opened Deliveries
  import opened OutboxSync
  import Redaction
  import LifeWords
  import Passes

  const REDACTED := Str("[REDACTED]")

  /** The pointer passes no sensitive key and does not reach the end of a configured path. */
  ghost predicate Open(pointer: seq<Hop>, sensitive: string -> bool, paths: seq<string>) {
    && (forall i | 0 <= i < |pointer| && pointer[i].Key? :: !sensitive(pointer[i].key))
    && (forall path <- paths, keys | Spells(keys, path) :: !(Hops(keys) <= pointer))
  }

  /**
   * A redacted copy: under a sensitive key, and at the end of a configured path, there is the marker or nothing, and
   * whatever lies off those is as it was.
   */
  ghost predicate Redacted(copied: Json, arguments: Json, sensitive: string -> bool, paths: seq<string>) {
    && (forall pointer: seq<Hop>, key | sensitive(key) :: At(copied, pointer + [Key(key)]) in {None, Some(REDACTED)})
    && (forall path <- paths, keys | Spells(keys, path) :: At(copied, Hops(keys)) in {None, Some(REDACTED)})
    && (forall pointer | Open(pointer, sensitive, paths) :: Redaction.SameNode(At(copied, pointer), At(arguments, pointer)))
  }

  /** The body of an endpoint's delivery for a log entry. */
  ghost predicate Exports(body: Body, entry: Entry, endpoint: Endpoint, sensitive: string -> bool) {
    && body.receipt == entry.receipt && LifeWords.EventStatus(entry.receipt.event) == Some(body.eventStatus)
    && body.actionId == entry.row.actionId && body.namespace == entry.row.namespace && body.tool == entry.row.tool
    && body.digest == entry.row.digest && body.policyVersion == entry.row.policyVersion && body.rule == entry.row.rule
    && Redacted(body.arguments, entry.row.arguments, sensitive, endpoint.redactPaths)
  }

  lemma {:induction false} CleanHidesSensitive(json: Json, sensitive: string -> bool, pointer: seq<Hop>, key: string)
    requires Redaction.Clean(json, sensitive) && sensitive(key)
    ensures At(json, pointer + [Key(key)]) in {None, Some(REDACTED)}
    decreases |pointer|
  {
    var longer := pointer + [Key(key)];
    if pointer == [] {
      assert longer[1..] == [];
    } else {
      assert longer[1..] == pointer[1..] + [Key(key)];
      match pointer[0]
      case Key(k) =>
        if json.Obj? && k in json.members {
          CleanHidesSensitive(json.members[k], sensitive, pointer[1..], key);
        }
      case Index(i) =>
        if json.Arr? && i < |json.items| {
          CleanHidesSensitive(json.items[i], sensitive, pointer[1..], key);
        }
    }
  }

  lemma {:induction false} ClosedPathsEnd(json: Json, keys: seq<string>)
    requires |keys| > 0 && Redaction.Closed(json, keys)
    ensures At(json, Hops(keys)) in {None, Some(REDACTED)}
  {
    assert Hops(keys)[1..] == Hops(keys[1..]);
    if json.Obj? && keys[0] in json.members {
      if |keys| == 1 {
        assert Hops(keys[1..]) == [];
      } else {
        ClosedPathsEnd(json.members[keys[0]], keys[1..]);
      }
    }
  }

  lemma OpenAvoidsPaths(pointer: seq<Hop>, sensitive: string -> bool, paths: seq<string>, i: nat)
    requires Open(pointer, sensitive, paths) && i < |paths|
    ensures Redaction.AvoidsPath(pointer, Segments(paths[i]))
  {
    var keys := Segments(paths[i]);
    SegmentsSpell(paths[i]);
    assert paths[i] in paths;
    if |pointer| >= |keys| {
      assert pointer[..|keys|] != Hops(keys);
      var j :| 0 <= j < |keys| && pointer[..|keys|][j] != Hops(keys)[j];
      assert pointer[j] != Key(keys[j]);
    }
  }

  /** Redaction gives a redacted copy. */
  lemma RedactionRedacts(arguments: Json, sensitive: string -> bool, paths: seq<string>)
    ensures Redacted(Redaction.Redact(arguments, sensitive, Split(paths)), arguments, sensitive, paths)
  {
    var copied := Redaction.Redact(arguments, sensitive, Split(paths));
    Redaction.NothingSensitiveSurvives(arguments, sensitive, Split(paths));
    hide Redaction.Redact, Redaction.Clean;
    forall pointer: seq<Hop>, key | sensitive(key) ensures At(copied, pointer + [Key(key)]) in {None, Some(REDACTED)} {
      CleanHidesSensitive(copied, sensitive, pointer, key);
    }
    forall path <- paths, keys | Spells(keys, path) ensures At(copied, Hops(keys)) in {None, Some(REDACTED)} {
      PathIsClosed(arguments, sensitive, paths, path);
      SegmentsSpell(path);
      SpellingIsUnique(keys, Segments(path), path);
      ClosedPathsEnd(copied, keys);
    }
    forall pointer | Open(pointer, sensitive, paths) ensures Redaction.SameNode(At(copied, pointer), At(arguments, pointer)) {
      forall split <- Split(paths) ensures Redaction.AvoidsPath(pointer, split) {
        var i :| 0 <= i < |paths| && Split(paths)[i] == split;
        OpenAvoidsPaths(pointer, sensitive, paths, i);
      }
      Redaction.OthersAreUnchanged(arguments, sensitive, Split(paths), pointer);
    }
  }

  lemma PathIsClosed(arguments: Json, sensitive: string -> bool, paths: seq<string>, path: string)
    requires path in paths
    ensures Redaction.Closed(Redaction.Redact(arguments, sensitive, Split(paths)), Segments(path))
  {
    var i :| 0 <= i < |paths| && paths[i] == path;
    assert Split(paths)[i] in Split(paths);
    Redaction.EveryPathIsClosed(Redaction.RedactSensitive(arguments, sensitive), Split(paths), Segments(path));
  }

  lemma BodiesExport(entry: Entry, endpoint: Endpoint, sensitive: string -> bool, body: Body)
    requires BuildBody(entry, endpoint, sensitive) == Some(body)
    ensures Exports(body, entry, endpoint, sensitive)
  {
    RedactionRedacts(entry.row.arguments, sensitive, endpoint.redactPaths);
    hide Redacted, Redaction.Redact;
  }

  /** Every delivery in a reached outbox exports its own log entry, redacted as its endpoint asks. */
  lemma DeliveriesExport(sensitive: string -> bool, moves: seq<Move>, key: DeliveryKey)
    requires key in Reached(sensitive, moves).outbox.deliveries
    ensures var m := Reached(sensitive, moves);
            && key.endpointId in m.outbox.endpoints && 1 <= key.sequence <= |m.log|
            && m.outbox.deliveries[key].event == m.log[key.sequence - 1].receipt.event
            && Exports(m.outbox.deliveries[key].body, m.log[key.sequence - 1], m.outbox.endpoints[key.endpointId].config, sensitive)
  {
    DeliveredEndpoint(sensitive, moves, key);
    OutboxIsComplete(sensitive, moves, key.endpointId, key.sequence);
    hide Reached, BuildBody, Exports;
    var m := Reached(sensitive, moves);
    assert key == DeliveryKey(key.endpointId, key.sequence);
    BodiesExport(m.log[key.sequence - 1], m.outbox.endpoints[key.endpointId].config, sensitive, m.outbox.deliveries[key].body);
  }

  lemma DeliveredEndpoint(sensitive: string -> bool, moves: seq<Move>, key: DeliveryKey)
    requires key in Reached(sensitive, moves).outbox.deliveries
    ensures key.endpointId in Reached(sensitive, moves).outbox.endpoints
    ensures var m := Reached(sensitive, moves);
            1 <= key.sequence <= |m.log| && m.outbox.deliveries[key].event == m.log[key.sequence - 1].receipt.event
  {
    ReachedIsSound(sensitive, moves);
    hide Reached, BuildBody, Select;
    var m := Reached(sensitive, moves);
    EndpointFacts(m, sensitive, key.endpointId);
    assert key == DeliveryKey(key.endpointId, key.sequence);
  }

  // ---------- one pass ----------

  /** The delivery is new from this pass: it exports its own entry and waits for its first attempt. */
  ghost predicate Fresh(d: Delivery, key: DeliveryKey, log: seq<Entry>, endpoint: Endpoint, sensitive: string -> bool, now: nat) {
    && endpoint.id == key.endpointId && 1 <= key.sequence <= |log|
    && log[key.sequence - 1].receipt.event in endpoint.events && d.event == log[key.sequence - 1].receipt.event
    && Exports(d.body, log[key.sequence - 1], endpoint, sensitive)
    && d.status == Waiting && d.attempts == 0 && d.nextAttemptAt == now && d.owner.None? && d.lease.None?
    && d.statusCode.None? && d.error.None? && d.deliveredAt.None?
  }

  predicate Keeps(a: Outbox, b: Outbox) {
    forall key | key in a.deliveries :: key in b.deliveries && b.deliveries[key] == a.deliveries[key]
  }

  ghost predicate Adds(a: Outbox, b: Outbox, log: seq<Entry>, endpoint: Endpoint, sensitive: string -> bool, now: nat) {
    forall key | key in b.deliveries && key !in a.deliveries :: Fresh(b.deliveries[key], key, log, endpoint, sensitive, now)
  }

  /** Each added delivery is from the turn of one of the endpoints from `i` on. */
  ghost predicate AddsFrom(a: Outbox, b: Outbox, log: seq<Entry>, endpoints: seq<Endpoint>, i: nat, sensitive: string -> bool,
                           clock: nat -> nat) {
    forall key | key in b.deliveries && key !in a.deliveries ::
      exists j :: i <= j < |endpoints| && Fresh(b.deliveries[key], key, log, endpoints[j], sensitive, clock(j))
  }

  lemma TurnExports(o: Outbox, log: seq<Entry>, endpoint: Endpoint, sensitive: string -> bool, now: nat)
    requires NumberedLog(log)
    ensures var tx := Passes.Turn(o, log, endpoint, sensitive, now);
            && Keeps(o, tx.outbox) && Adds(o, tx.outbox, log, endpoint, sensitive, now)
            && (tx.reply.Returned? ==> |tx.outbox.deliveries| == |o.deliveries| + tx.reply.value)
            && (tx.reply.Raised? ==> tx.outbox.deliveries == o.deliveries)
  {
    hide Exports, Insert, Inserted, Select, BuildBody;
    var registered := Register(o, endpoint, |log|);
    if registered.reply.Returned? {
      var items := Select(log, |log|, registered.reply.value, endpoint, sensitive);
      if items.Some? {
        var checkpoint := registered.outbox.endpoints[endpoint.id].checkpoint;
        InsertedCounts(o.deliveries, endpoint, checkpoint, items.value, now);
        InsertedAreFresh(o.deliveries, log, endpoint, registered.reply.value, checkpoint, items.value, sensitive, now);
      }
    }
    hide Fresh;
  }

  lemma InsertedAreFresh(rows: map<DeliveryKey, Delivery>, log: seq<Entry>, endpoint: Endpoint, from: nat, checkpoint: nat, items: seq<Item>,
                         sensitive: string -> bool, now: nat)
    requires NumberedLog(log) && Select(log, |log|, from, endpoint, sensitive) == Some(items)
    ensures var after := Insert(rows, endpoint, checkpoint, items, now);
            && (forall key | key in rows :: key in after && after[key] == rows[key])
            && (forall key | key in after && key !in rows :: Fresh(after[key], key, log, endpoint, sensitive, now))
  {
    SelectedAreFresh(log, endpoint, from, items, sensitive, now);
    InsertExact(rows, endpoint, checkpoint, items, now);
    hide Fresh, Insert, Select, NewDelivery;
    var after := Insert(rows, endpoint, checkpoint, items, now);
    forall key | key in after && key !in rows ensures Fresh(after[key], key, log, endpoint, sensitive, now) {
      var item :| item in items && item.sequence == key.sequence && after[key] == NewDelivery(item, now);
      assert key == DeliveryKey(endpoint.id, item.sequence);
    }
  }

  lemma SelectedAreFresh(log: seq<Entry>, endpoint: Endpoint, from: nat, items: seq<Item>, sensitive: string -> bool, now: nat)
    requires NumberedLog(log) && Select(log, |log|, from, endpoint, sensitive) == Some(items)
    ensures forall item <- items :: Fresh(NewDelivery(item, now), DeliveryKey(endpoint.id, item.sequence), log, endpoint, sensitive, now)
  {
    SelectExact(log, |log|, from, endpoint, sensitive);
    hide Exports, Select, BuildBody;
    forall item <- items ensures Fresh(NewDelivery(item, now), DeliveryKey(endpoint.id, item.sequence), log, endpoint, sensitive, now) {
      BodiesExport(log[item.sequence - 1], endpoint, sensitive, item.body);
    }
  }

  /** The number returned is the number of rows added. */
  lemma {:induction false} InsertedCounts(rows: map<DeliveryKey, Delivery>, endpoint: Endpoint, checkpoint: nat, items: seq<Item>, now: nat)
    ensures |Insert(rows, endpoint, checkpoint, items, now)| == |rows| + Inserted(rows, endpoint, checkpoint, items, now)
  {
    if items != [] {
      var n := |items| - 1;
      InsertedCounts(rows, endpoint, checkpoint, items[..n], now);
      var before := Insert(rows, endpoint, checkpoint, items[..n], now);
      var key := DeliveryKey(endpoint.id, items[n].sequence);
      if key !in before {
        assert before[key := NewDelivery(items[n], now)].Keys == before.Keys + {key};
      }
    }
  }

  /** Every delivery a filling pass adds exports its own entry of the log, and the pass returns how many it added. */
  lemma {:induction false} PassesExport(o: Outbox, log: seq<Entry>, endpoints: seq<Endpoint>, i: nat, sensitive: string -> bool,
                                        clock: nat -> nat, inserted: nat)
    requires NumberedLog(log) && i <= |endpoints|
    ensures var tx := Passes.Sync(o, log, endpoints, i, sensitive, clock, inserted);
            && Keeps(o, tx.outbox) && AddsFrom(o, tx.outbox, log, endpoints, i, sensitive, clock)
            && (tx.reply.Returned? ==> |tx.outbox.deliveries| + inserted == |o.deliveries| + tx.reply.value)
    decreases |endpoints| - i
  {
    hide *;
    PassUnfolds(o, log, endpoints, i, sensitive, clock, inserted);
    if i < |endpoints| {
      var turn := Passes.Turn(o, log, endpoints[i], sensitive, clock(i));
      TurnExports(o, log, endpoints[i], sensitive, clock(i));
      if turn.reply.Returned? {
        PassesExport(turn.outbox, log, endpoints, i + 1, sensitive, clock, inserted + turn.reply.value);
        TurnThenRest(o, turn.outbox, Passes.Sync(o, log, endpoints, i, sensitive, clock, inserted).outbox, log, endpoints, i, sensitive, clock);
      } else {
        NothingAdded(turn.outbox, log, endpoints, i + 1, sensitive, clock);
        TurnThenRest(o, turn.outbox, turn.outbox, log, endpoints, i, sensitive, clock);
      }
    } else {
      NothingAdded(o, log, endpoints, i, sensitive, clock);
    }
  }

  lemma NothingAdded(o: Outbox, log: seq<Entry>, endpoints: seq<Endpoint>, i: nat, sensitive: string -> bool, clock: nat -> nat)
    ensures Keeps(o, o) && AddsFrom(o, o, log, endpoints, i, sensitive, clock)
  {
  }

  lemma PassUnfolds(o: Outbox, log: seq<Entry>, endpoints: seq<Endpoint>, i: nat, sensitive: string -> bool, clock: nat -> nat, inserted: nat)
    requires i <= |endpoints|
    ensures Passes.Sync(o, log, endpoints, i, sensitive, clock, inserted)
         == if i == |endpoints| then Tx(o, Returned(inserted))
            else
              var turn := Passes.Turn(o, log, endpoints[i], sensitive, clock(i));
              if turn.reply.Raised? then turn
              else Passes.Sync(turn.outbox, log, endpoints, i + 1, sensitive, clock, inserted + turn.reply.value)
  {
    hide Passes.Turn;
  }

  lemma TurnThenRest(a: Outbox, b: Outbox, c: Outbox, log: seq<Entry>, endpoints: seq<Endpoint>, i: nat, sensitive: string -> bool,
                     clock: nat -> nat)
    requires i < |endpoints| && Keeps(a, b) && Adds(a, b, log, endpoints[i], sensitive, clock(i))
    requires Keeps(b, c) && AddsFrom(b, c, log, endpoints, i + 1, sensitive, clock)
    ensures Keeps(a, c) && AddsFrom(a, c, log, endpoints, i, sensitive, clock)
  {
    hide Fresh;
  }

  // ---------- where an endpoint starts ----------

  /** The first registration starts an endpoint at the beginning of the log, or at its end if it asks for the latest. */
  lemma RegistersExactly(o: Outbox, endpoint: Endpoint, current: nat)
    ensures var tx := Register(o, endpoint, current);
            && tx.outbox.deliveries == o.deliveries
            && (endpoint.id !in o.endpoints ==>
                  && tx.reply == Returned(if endpoint.fromLatest then current else 0)
                  && tx.outbox.endpoints == o.endpoints[endpoint.id := Registered(endpoint, tx.reply.value)])
            && (endpoint.id in o.endpoints ==>
                  && tx.outbox == o
                  && tx.reply == if o.endpoints[endpoint.id].config == endpoint then Returned(o.endpoints[endpoint.id].checkpoint)
                                 else Raised(ConfigurationChanged))
  {
  }
}
