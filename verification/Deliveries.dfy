/** The webhook outbox: endpoint checkpoints and leased deliveries, one function per transaction. */
module Deliveries {
  import opened Basics
  import opened JsonValues
  import opened RuntimeModels
  import opened Redaction
  import opened Retries
  import LifeWords
  import TableOrder

  /** Endpoint semantics; two endpoints have one configuration digest exactly when they are equal. */
  datatype Endpoint = Endpoint(
    id: string, target: string, events: set<Event>, redactPaths: seq<string>, maxAttempts: Tries,
    initialBackoff: nat, maxBackoff: nat, fromLatest: bool)

  /** The canonical body of one delivery. */
  datatype Body = Body(
    receipt: Receipt, actionId: string, namespace: string, tool: string, arguments: Json, digest: Digest,
    policyVersion: string, rule: string, eventStatus: string)

  /** A receipt with the row it is about; a body uses only columns of the row that never change. */
  datatype Entry = Entry(receipt: Receipt, row: Action)

  /** The configured paths, each split at its dots. */
  function Split(paths: seq<string>): (split: seq<Path>)
    ensures |split| == |paths| && forall i | 0 <= i < |paths| :: split[i] == Segments(paths[i])
  {
    seq(|paths|, i requires 0 <= i < |paths| => Segments(paths[i]))
  }

  /** Builds a body; receipts of blocks have no status, and building their body raises. */
  function BuildBody(entry: Entry, endpoint: Endpoint, sensitive: string -> bool): Option<Body> {
    var status := LifeWords.EventStatus(entry.receipt.event);
    if status.None? then None
    else
      Some(Body(entry.receipt, entry.row.actionId, entry.row.namespace, entry.row.tool,
                Redact(entry.row.arguments, sensitive, Split(endpoint.redactPaths)), entry.row.digest,
                entry.row.policyVersion, entry.row.rule, status.value))
  }

  datatype DeliveryStatus = Waiting | Delivering | Delivered | Dead

  datatype Delivery = Delivery(
    event: Event, body: Body, status: DeliveryStatus, attempts: nat, nextAttemptAt: nat, lease: Option<nat>,
    owner: Option<string>, statusCode: Option<int>, error: Option<string>, deliveredAt: Option<nat>)

  /** `sha256("endpoint:runtime-receipt-n")` as the pair it encodes. */
  datatype DeliveryKey = DeliveryKey(endpointId: string, sequence: nat)

  datatype Registered = Registered(config: Endpoint, checkpoint: nat)

  datatype Outbox = Outbox(endpoints: map<string, Registered>, deliveries: map<DeliveryKey, Delivery>)

  datatype OutboxError = InvalidInput | ConfigurationChanged | NotFound | NotOwned | NotDead | NoStatus | Unconfigured

  datatype Tx<+T> = Tx(outbox: Outbox, reply: Outcome<T, OutboxError>)

  // ---------- filling the outbox ----------

  function Register(o: Outbox, endpoint: Endpoint, current: nat): Tx<nat> {
    if endpoint.id in o.endpoints then
      var row := o.endpoints[endpoint.id];
      Tx(o, if row.config != endpoint then Raised(ConfigurationChanged) else Returned(row.checkpoint))
    else
      var checkpoint := if endpoint.fromLatest then current else 0;
      Tx(o.(endpoints := o.endpoints[endpoint.id := Registered(endpoint, checkpoint)]), Returned(checkpoint))
  }

  datatype Item = Item(sequence: nat, event: Event, body: Body)

  function NewDelivery(item: Item, now: nat): Delivery {
    Delivery(item.event, item.body, Waiting, 0, now, None, None, None, None, None)
  }

  predicate Wanted(endpoint: Endpoint, checkpoint: nat, sequence: nat, event: Event) {
    sequence > checkpoint && event in endpoint.events
  }

  /** INSERT OR IGNORE of the wanted items, in order. */
  function Insert(rows: map<DeliveryKey, Delivery>, endpoint: Endpoint, checkpoint: nat, items: seq<Item>,
                  now: nat): map<DeliveryKey, Delivery> {
    if items == [] then rows
    else
      var before := Insert(rows, endpoint, checkpoint, items[..|items| - 1], now);
      var item := items[|items| - 1];
      var key := DeliveryKey(endpoint.id, item.sequence);
      if !Wanted(endpoint, checkpoint, item.sequence, item.event) || key in before then before
      else before[key := NewDelivery(item, now)]
  }

  function Inserted(rows: map<DeliveryKey, Delivery>, endpoint: Endpoint, checkpoint: nat, items: seq<Item>,
                    now: nat): nat {
    if items == [] then 0
    else
      var before := Insert(rows, endpoint, checkpoint, items[..|items| - 1], now);
      var item := items[|items| - 1];
      Inserted(rows, endpoint, checkpoint, items[..|items| - 1], now)
        + if !Wanted(endpoint, checkpoint, item.sequence, item.event) || DeliveryKey(endpoint.id, item.sequence) in before then 0 else 1
  }

  function Max(a: nat, b: nat): nat {
    if a >= b then a else b
  }

  function Enqueue(o: Outbox, endpoint: Endpoint, items: seq<Item>, observed: nat, now: nat): Tx<nat> {
    if endpoint.id !in o.endpoints then Tx(o, Raised(NotFound))
    else
      var row := o.endpoints[endpoint.id];
      Tx(Outbox(o.endpoints[endpoint.id := row.(checkpoint := Max(row.checkpoint, observed))],
                Insert(o.deliveries, endpoint, row.checkpoint, items, now)),
         Returned(Inserted(o.deliveries, endpoint, row.checkpoint, items, now)))
  }

  // ---------- delivering ----------

  /** What a worker holds: a delivery and the attempt it is on. */
  datatype Claimed = Claimed(key: DeliveryKey, body: Body, attempts: Tries)

  predicate Abandoned(d: Delivery, now: nat) {
    d.status == Delivering && d.lease.Some? && d.lease.value <= now
  }

  /** Deliveries whose lease ran out wait again. */
  function Reclaimed(rows: map<DeliveryKey, Delivery>, now: nat): map<DeliveryKey, Delivery> {
    map key | key in rows ::
      if Abandoned(rows[key], now) then rows[key].(status := Waiting, owner := None, lease := None, nextAttemptAt := now) else rows[key]
  }

  predicate Due(d: Delivery, now: nat) {
    d.status == Waiting && d.nextAttemptAt <= now
  }

  /** Due deliveries by receipt, then by endpoint. */
  function DueOrder(rows: map<DeliveryKey, Delivery>, now: nat): seq<TableOrder.Key> {
    TableOrder.Sorted(DueKeys(rows, now))
  }

  function DueKeys(rows: map<DeliveryKey, Delivery>, now: nat): set<TableOrder.Key> {
    set key | key in rows && Due(rows[key], now) :: RankOf(key)
  }

  function RankOf(key: DeliveryKey): TableOrder.Key {
    TableOrder.Key(key.sequence, key.endpointId)
  }

  function KeyAt(k: TableOrder.Key): DeliveryKey {
    DeliveryKey(k.id, if k.rank >= 0 then k.rank else 0)
  }

  /** The first due delivery. */
  function FirstDue(rows: map<DeliveryKey, Delivery>, now: nat): (r: Option<DeliveryKey>)
    ensures r.Some? ==> r.value in rows && Due(rows[r.value], now)
    ensures r.Some? ==> forall key | key in rows && Due(rows[key], now) :: key == r.value || TableOrder.Before(RankOf(r.value), RankOf(key))
    ensures r.None? ==> forall key | key in rows :: !Due(rows[key], now)
  {
    var order := DueOrder(rows, now);
    assert forall key | key in rows && Due(rows[key], now) :: RankOf(key) in order;
    if order == [] then None
    else
      assert order[0] in DueKeys(rows, now);
      Some(KeyAt(order[0]))
  }

  function ClaimDue(o: Outbox, lease: nat, worker: string, now: nat): Tx<Option<Claimed>> {
    if Blank(worker) then Tx(o, Raised(InvalidInput))
    else
      var rows := Reclaimed(o.deliveries, now);
      var first := FirstDue(rows, now);
      if first.None? then Tx(o.(deliveries := rows), Returned(None))
      else
        var d := rows[first.value];
        var d1 := d.(status := Delivering, attempts := d.attempts + 1, owner := Some(worker), lease := Some(now + lease));
        Tx(o.(deliveries := rows[first.value := d1]), Returned(Some(Claimed(first.value, d.body, d.attempts + 1))))
  }

  predicate Owned(o: Outbox, key: DeliveryKey, worker: string) {
    key in o.deliveries && o.deliveries[key].status == Delivering && o.deliveries[key].owner == Some(worker)
  }

  function Ownership(o: Outbox, key: DeliveryKey, worker: string): Option<OutboxError> {
    if key !in o.deliveries then Some(NotFound) else if !Owned(o, key, worker) then Some(NotOwned) else None
  }

  function MarkDelivered(o: Outbox, key: DeliveryKey, worker: string, statusCode: int, now: nat): Tx<()> {
    if !(100 <= statusCode <= 599) then Tx(o, Raised(InvalidInput))
    else if Ownership(o, key, worker).Some? then Tx(o, Raised(Ownership(o, key, worker).value))
    else
      var d := o.deliveries[key].(status := Delivered, deliveredAt := Some(now), statusCode := Some(statusCode), error := None,
                                  owner := None, lease := None);
      Tx(o.(deliveries := o.deliveries[key := d]), Returned(()))
  }

  function Backoff(endpoint: Endpoint, attempts: Tries): nat {
    Wait(endpoint.initialBackoff, endpoint.maxBackoff, attempts)
  }

  /** Schedules a retry, or gives up once the claimed attempt was the last; true means given up. */
  function MarkFailed(o: Outbox, claimed: Claimed, worker: string, endpoint: Endpoint, statusCode: Option<int>,
                      error: string, now: nat): Tx<bool> {
    if claimed.key.endpointId != endpoint.id || (statusCode.Some? && !(100 <= statusCode.value <= 599)) || Blank(error) || |error| > 128 then
      Tx(o, Raised(InvalidInput))
    else if Ownership(o, claimed.key, worker).Some? then Tx(o, Raised(Ownership(o, claimed.key, worker).value))
    else
      var terminal := claimed.attempts >= endpoint.maxAttempts;
      var d := o.deliveries[claimed.key].(status := if terminal then Dead else Waiting,
                                          nextAttemptAt := if terminal then now else now + Backoff(endpoint, claimed.attempts),
                                          statusCode := statusCode, error := Some(error), owner := None, lease := None);
      Tx(o.(deliveries := o.deliveries[claimed.key := d]), Returned(terminal))
  }

  function RetryDead(o: Outbox, key: DeliveryKey, now: nat): Tx<Delivery> {
    if Blank(key.endpointId) then Tx(o, Raised(InvalidInput))
    else if key !in o.deliveries then Tx(o, Raised(NotFound))
    else if o.deliveries[key].status != Dead then Tx(o, Raised(NotDead))
    else
      var d := o.deliveries[key].(status := Waiting, attempts := 0, nextAttemptAt := now, owner := None, lease := None, deliveredAt := None);
      Tx(o.(deliveries := o.deliveries[key := d]), Returned(d))
  }
}
