/** What each transaction of the webhook outbox promises: exactly when it returns, and what it leaves of its row and the others. */
module DeliveryLaws {
  import opened Basics
  import opened Deliveries
  import opened Retries
  import TableOrder

  /** The row, and no other, changed to this. */
  predicate RowBecomes(a: Outbox, b: Outbox, key: DeliveryKey, d: Delivery) {
    b == a.(deliveries := a.deliveries[key := d])
  }

  // ---------- claiming ----------

  /** The worker's lease on it ran out. */
  predicate Lost(d: Delivery, now: nat) {
    d.status == Delivering && d.lease.Some? && d.lease.value <= now
  }

  /** It may be claimed now. */
  predicate Claimable(d: Delivery, now: nat) {
    Lost(d, now) || (d.status == Waiting && d.nextAttemptAt <= now)
  }

  function Rank(key: DeliveryKey): TableOrder.Key {
    TableOrder.Key(key.sequence, key.endpointId)
  }

  /** What becomes of a delivery that is not handed out. */
  function LetGo(d: Delivery, now: nat): Delivery {
    if Lost(d, now) then d.(status := Waiting, owner := None, lease := None, nextAttemptAt := now) else d
  }

  /** A claim hands out the first claimable delivery for its next attempt, under a fresh lease, and lets the other lost ones go. */
  lemma ClaimsExactly(o: Outbox, lease: nat, worker: string, now: nat)
    ensures var tx := ClaimDue(o, lease, worker, now);
            && tx.outbox.endpoints == o.endpoints && tx.outbox.deliveries.Keys == o.deliveries.Keys
            && (Blank(worker) ==> tx == Tx(o, Raised(InvalidInput)))
            && (!Blank(worker) ==> tx.reply.Returned?)
            && (tx.reply == Returned(None) ==> tx.outbox == o && forall key | key in o.deliveries :: !Claimable(o.deliveries[key], now))
            && (tx.reply.Returned? && tx.reply.value.Some? ==>
                  var c := tx.reply.value.value;
                  && c.key in o.deliveries && Claimable(o.deliveries[c.key], now)
                  && (forall key | key in o.deliveries && Claimable(o.deliveries[key], now) ::
                        key == c.key || TableOrder.Before(Rank(c.key), Rank(key)))
                  && c.body == o.deliveries[c.key].body && c.attempts == o.deliveries[c.key].attempts + 1
                  && tx.outbox.deliveries[c.key]
                     == LetGo(o.deliveries[c.key], now).(status := Delivering, attempts := c.attempts, owner := Some(worker), lease := Some(now + lease))
                  && forall key | key in o.deliveries && key != c.key :: tx.outbox.deliveries[key] == LetGo(o.deliveries[key], now))
  {
    hide FirstDue;
    var rows := Reclaimed(o.deliveries, now);
    assert rows.Keys == o.deliveries.Keys;
    assert forall key | key in rows :: rows[key] == LetGo(o.deliveries[key], now);
    assert forall key | key in rows :: Due(rows[key], now) <==> Claimable(o.deliveries[key], now);
    if FirstDue(rows, now).None? {
      assert forall key | key in rows :: rows[key] == o.deliveries[key];
      assert rows == o.deliveries;
    }
  }

  // ---------- finishing ----------

  /** The worker is delivering it now. */
  predicate Delivers(o: Outbox, key: DeliveryKey, worker: string) {
    key in o.deliveries && o.deliveries[key].status == Delivering && o.deliveries[key].owner == Some(worker)
  }

  lemma FinishesExactly(o: Outbox, key: DeliveryKey, worker: string, code: int, now: nat)
    ensures var tx := MarkDelivered(o, key, worker, code, now);
            && (tx.reply.Returned? <==> 100 <= code <= 599 && Delivers(o, key, worker))
            && (tx.reply.Raised? ==> tx.outbox == o)
            && (tx.reply.Returned? ==>
                  RowBecomes(o, tx.outbox, key,
                             o.deliveries[key].(status := Delivered, deliveredAt := Some(now), statusCode := Some(code), error := None,
                                                owner := None, lease := None)))
  {
  }

  /** A failed attempt is repeated after the wait for it, or was the last. */
  lemma FailsExactly(o: Outbox, claimed: Claimed, worker: string, endpoint: Endpoint, code: Option<int>, error: string, now: nat)
    ensures var tx := MarkFailed(o, claimed, worker, endpoint, code, error, now);
            && (tx.reply.Returned?
                <==> && claimed.key.endpointId == endpoint.id && (code.Some? ==> 100 <= code.value <= 599)
                     && !Blank(error) && |error| <= 128 && Delivers(o, claimed.key, worker))
            && (tx.reply.Raised? ==> tx.outbox == o)
            && (tx.reply.Returned? ==>
                  && tx.reply.value == (claimed.attempts >= endpoint.maxAttempts)
                  && RowBecomes(o, tx.outbox, claimed.key,
                                o.deliveries[claimed.key].(
                                  status := if claimed.attempts >= endpoint.maxAttempts then Dead else Waiting,
                                  nextAttemptAt := if claimed.attempts >= endpoint.maxAttempts then now
                                                   else now + Wait(endpoint.initialBackoff, endpoint.maxBackoff, claimed.attempts),
                                  statusCode := code, error := Some(error), owner := None, lease := None)))
  {
    hide Wait;
  }

  /** Only a dead delivery is taken up again by hand, with no attempts spent. */
  lemma RetriesExactly(o: Outbox, key: DeliveryKey, now: nat)
    ensures var tx := RetryDead(o, key, now);
            && (tx.reply.Returned? <==> !Blank(key.endpointId) && key in o.deliveries && o.deliveries[key].status == Dead)
            && (tx.reply.Raised? ==> tx.outbox == o)
            && (tx.reply.Returned? ==>
                  RowBecomes(o, tx.outbox, key,
                             o.deliveries[key].(status := Waiting, attempts := 0, nextAttemptAt := now, owner := None, lease := None,
                                                deliveredAt := None)))
  {
  }

  /** Enqueuing needs a registered endpoint, and moves its checkpoint forward only. */
  lemma AdvancesExactly(o: Outbox, endpoint: Endpoint, items: seq<Item>, observed: nat, now: nat)
    ensures var tx := Enqueue(o, endpoint, items, observed, now);
            && (tx.reply.Returned? <==> endpoint.id in o.endpoints)
            && (tx.reply.Raised? ==> tx.outbox == o)
            && (tx.reply.Returned? ==>
                  var row := o.endpoints[endpoint.id];
                  tx.outbox.endpoints
                  == o.endpoints[endpoint.id := Registered(row.config, if observed > row.checkpoint then observed else row.checkpoint)])
  {
    hide Insert, Inserted;
  }
}
