/**
 * The delivery store and the worker that fills and drains it, updating their tables in place. Store methods are
 * proved against the functions of `Deliveries`; a worker's pass is proved against what a pass promises.
 */
module WebhookStores {
  import opened Basics
  import opened Retries
  import opened RuntimeModels
  import opened Deliveries
  import opened OutboxSync
  import opened Passes

  class WebhookDeliveryStore {
    const lease: Tries
    var endpoints: map<string, Registered>
    var deliveries: map<DeliveryKey, Delivery>

    function Contents(): Outbox
      reads this
    {
      Outbox(endpoints, deliveries)
    }

    constructor (lease: Tries)
      ensures this.lease == lease && Contents() == Outbox(map[], map[])
    {
      this.lease := lease;
      endpoints, deliveries := map[], map[];
    }

    method RegisterEndpoint(endpoint: Endpoint, current: nat) returns (r: Outcome<nat, OutboxError>)
      modifies this
      ensures Tx(Contents(), r) == Register(old(Contents()), endpoint, current)
    {
      if endpoint.id in endpoints {
        if endpoints[endpoint.id].config != endpoint {
          return Raised(ConfigurationChanged);
        }
        return Returned(endpoints[endpoint.id].checkpoint);
      }
      var checkpoint := if endpoint.fromLatest then current else 0;
      endpoints := endpoints[endpoint.id := Registered(endpoint, checkpoint)];
      return Returned(checkpoint);
    }

    method Enqueue(endpoint: Endpoint, items: seq<Item>, observed: nat, now: nat) returns (r: Outcome<nat, OutboxError>)
      modifies this
      ensures Tx(Contents(), r) == Deliveries.Enqueue(old(Contents()), endpoint, items, observed, now)
    {
      if endpoint.id !in endpoints {
        return Raised(NotFound);
      }
      var row := endpoints[endpoint.id];
      var inserted := 0;
      for i := 0 to |items|
        invariant endpoints == old(endpoints)
        invariant deliveries == Insert(old(deliveries), endpoint, row.checkpoint, items[..i], now)
        invariant inserted == Inserted(old(deliveries), endpoint, row.checkpoint, items[..i], now)
      {
        assert items[..i + 1][..i] == items[..i];
        if Wanted(endpoint, row.checkpoint, items[i].sequence, items[i].event) {
          var key := DeliveryKey(endpoint.id, items[i].sequence);
          if key !in deliveries {
            deliveries := deliveries[key := NewDelivery(items[i], now)];
            inserted := inserted + 1;
          }
        }
      }
      assert items[..|items|] == items;
      endpoints := endpoints[endpoint.id := row.(checkpoint := if observed > row.checkpoint then observed else row.checkpoint)];
      return Returned(inserted);
    }

    method ClaimDue(worker: string, now: nat) returns (r: Outcome<Option<Claimed>, OutboxError>)
      modifies this
      ensures Tx(Contents(), r) == Deliveries.ClaimDue(old(Contents()), lease, worker, now)
    {
      if Blank(worker) {
        return Raised(InvalidInput);
      }
      deliveries := Reclaimed(deliveries, now);
      var first := FirstDue(deliveries, now);
      if first.None? {
        return Returned(None);
      }
      var d := deliveries[first.value];
      deliveries := deliveries[first.value := d.(status := Delivering, attempts := d.attempts + 1, owner := Some(worker),
                                                 lease := Some(now + lease))];
      return Returned(Some(Claimed(first.value, d.body, d.attempts + 1)));
    }

    method MarkDelivered(key: DeliveryKey, worker: string, statusCode: int, now: nat)
      returns (r: Outcome<(), OutboxError>)
      modifies this
      ensures Tx(Contents(), r) == Deliveries.MarkDelivered(old(Contents()), key, worker, statusCode, now)
    {
      if !(100 <= statusCode <= 599) {
        return Raised(InvalidInput);
      }
      if key !in deliveries {
        return Raised(NotFound);
      }
      if !Owned(Contents(), key, worker) {
        return Raised(NotOwned);
      }
      deliveries := deliveries[key := deliveries[key].(status := Delivered, deliveredAt := Some(now), statusCode := Some(statusCode),
                                                       error := None, owner := None, lease := None)];
      return Returned(());
    }

    /** True means dead, false means retried. */
    method MarkFailed(claimed: Claimed, worker: string, endpoint: Endpoint, statusCode: Option<int>, error: string,
                      now: nat)
      returns (r: Outcome<bool, OutboxError>)
      modifies this
      ensures Tx(Contents(), r) == Deliveries.MarkFailed(old(Contents()), claimed, worker, endpoint, statusCode, error, now)
    {
      if claimed.key.endpointId != endpoint.id || (statusCode.Some? && !(100 <= statusCode.value <= 599)) || Blank(error) || |error| > 128 {
        return Raised(InvalidInput);
      }
      if claimed.key !in deliveries {
        return Raised(NotFound);
      }
      if !Owned(Contents(), claimed.key, worker) {
        return Raised(NotOwned);
      }
      var terminal := claimed.attempts >= endpoint.maxAttempts;
      var next := if terminal then now else now + Backoff(endpoint, claimed.attempts);
      deliveries := deliveries[claimed.key := deliveries[claimed.key].(status := if terminal then Dead else Waiting, nextAttemptAt := next,
                                                                       statusCode := statusCode, error := Some(error),
                                                                       owner := None, lease := None)];
      return Returned(terminal);
    }

    method RetryDead(key: DeliveryKey, now: nat) returns (r: Outcome<Delivery, OutboxError>)
      modifies this
      ensures Tx(Contents(), r) == Deliveries.RetryDead(old(Contents()), key, now)
    {
      if Blank(key.endpointId) {
        return Raised(InvalidInput);
      }
      if key !in deliveries {
        return Raised(NotFound);
      }
      if deliveries[key].status != Dead {
        return Raised(NotDead);
      }
      deliveries := deliveries[key := deliveries[key].(status := Waiting, attempts := 0, nextAttemptAt := now, owner := None,
                                                       lease := None, deliveredAt := None)];
      return Returned(deliveries[key]);
    }
  }

  class WebhookWorker {
    const store: WebhookDeliveryStore
    const endpoints: seq<Endpoint>
    const name: string
    const sensitive: string -> bool
    var byId: map<string, Endpoint>

    predicate Valid()
      reads this
    {
      && (forall e <- endpoints :: e.id in byId && byId[e.id] == e)
      && (forall id | id in byId :: byId[id].id == id)
    }

    constructor (store: WebhookDeliveryStore, endpoints: seq<Endpoint>, name: string, sensitive: string -> bool)
      requires DistinctIds(endpoints)
      ensures Valid() && this.store == store && this.endpoints == endpoints && this.name == name && this.sensitive == sensitive
    {
      this.store, this.endpoints, this.name, this.sensitive := store, endpoints, name, sensitive;
      byId := map[];
      new;
      for i := 0 to |endpoints|
        invariant forall j | 0 <= j < i :: endpoints[j].id in byId && byId[endpoints[j].id] == endpoints[j]
        invariant forall id | id in byId :: byId[id].id == id
      {
        byId := byId[endpoints[i].id := endpoints[i]];
      }
    }

    /** `clock(i)` is what the clock says when endpoint `i` is enqueued. */
    method SyncOutbox(log: seq<Entry>, clock: nat -> nat) returns (r: Outcome<nat, OutboxError>)
      modifies store
      ensures Tx(store.Contents(), r) == Sync(old(store.Contents()), log, endpoints, 0, sensitive, clock, 0)
    {
      hide Select, Register, Deliveries.Enqueue;
      var inserted: nat := 0;
      for i := 0 to |endpoints|
        invariant Sync(old(store.Contents()), log, endpoints, 0, sensitive, clock, 0)
               == Sync(store.Contents(), log, endpoints, i, sensitive, clock, inserted)
      {
        var checkpoint := store.RegisterEndpoint(endpoints[i], |log|);
        if checkpoint.Raised? {
          return checkpoint;
        }
        var selected := SelectFor(endpoints[i], log, checkpoint.value);
        if selected.None? {
          return Raised(NoStatus);
        }
        var added := store.Enqueue(endpoints[i], selected.value, |log|, clock(i));
        if added.Raised? {
          return added;
        }
        inserted := inserted + added.value;
      }
      return Returned(inserted);
    }

    /** The bodies an endpoint lacks; none at all if one of them cannot be built. */
    method SelectFor(endpoint: Endpoint, log: seq<Entry>, checkpoint: nat) returns (items: Option<seq<Item>>)
      ensures items == Select(log, |log|, checkpoint, endpoint, sensitive)
    {
      var selected := [];
      for j := 0 to |log|
        invariant Select(log, j, checkpoint, endpoint, sensitive) == Some(selected)
      {
        var receipt := log[j].receipt;
        if Wanted(endpoint, checkpoint, receipt.sequence, receipt.event) {
          var body := BuildBody(log[j], endpoint, sensitive);
          if body.None? {
            SelectionStaysFailed(log, j + 1, |log|, checkpoint, endpoint, sensitive);
            return None;
          }
          selected := selected + [Item(receipt.sequence, receipt.event, body.value)];
        }
      }
      return Some(selected);
    }

    /** One round of the loop: claim a due delivery, send it, record what came of it. */
    method DeliverNext(claimedAt: nat, sent: Sent, finishedAt: nat) returns (r: Outcome<Round, OutboxError>, claimed: nat)
      requires Valid()
      modifies store
      ensures SameContents(old(store.Contents()), store.Contents())
      ensures claimed == 0 || (claimed == 1 && Budget(old(store.Contents()).deliveries, byId) >= 1)
      ensures r.Returned? ==> Spent(old(store.Contents()), store.Contents(), byId, r.value) && (claimed == 0 <==> r.value.NothingDue?)
      ensures r.Returned? && r.value.NothingDue? ==> forall key | key in store.deliveries :: !Due(store.deliveries[key], claimedAt)
      ensures var claim := Deliveries.ClaimDue(old(store.Contents()), store.lease, name, claimedAt);
              && (claimed == 1 <==> claim.reply.Returned? && claim.reply.value.Some?)
              && (claimed == 0 ==> store.Contents() == claim.outbox)
              && (r.Returned? && claimed == 1 ==>
                    RoundLeft(claim.outbox, store.Contents(), claim.reply.value.value, name, byId, sent, finishedAt, r.value))
      ensures r.Returned? && claimed == 1 ==> (r.value.Sending? <==> GotThrough(sent))
    {
      hide Budget, Having, Deliveries.ClaimDue, Deliveries.MarkDelivered, Deliveries.MarkFailed, SameContents;
      ghost var before := store.Contents();
      ClaimSpends(before, byId, store.lease, name, claimedAt);
      ClaimKeepsContents(before, store.lease, name, claimedAt);
      var claim := store.ClaimDue(name, claimedAt);
      if claim.Raised? {
        return Raised(claim.error), 0;
      }
      if claim.value.None? {
        return Returned(NothingDue), 0;
      }
      var delivery := claim.value.value;
      if delivery.key.endpointId !in byId {
        return Raised(Unconfigured), 1;
      }
      var endpoint := byId[delivery.key.endpointId];
      ghost var held := store.Contents();
      if sent.Status? && 200 <= sent.code < 300 {
        DeliverSpends(before, held, byId, delivery, name, sent.code, finishedAt);
        MarkKeepsContents(held, delivery.key, name, sent.code, finishedAt);
        var done := store.MarkDelivered(delivery.key, name, sent.code, finishedAt);
        SameContentsChains(before, held, store.Contents());
        return Returned(Sending), 1;
      }
      var code := if sent.Status? then Some(sent.code) else None;
      var error := if sent.Status? then "HTTPError" else if |sent.exception| > 128 then sent.exception[..128] else sent.exception;
      FailSpends(before, held, byId, delivery, name, code, error, finishedAt);
      FailKeepsContents(held, delivery, name, endpoint, code, error, finishedAt);
      var outcome := store.MarkFailed(delivery, name, endpoint, code, error, finishedAt);
      SameContentsChains(before, held, store.Contents());
      if outcome.Raised? {
        return Raised(outcome.error), 1;
      }
      return Returned(if outcome.value then GivingUp else Retrying), 1;
    }

    /**
     * One pass. `clock(n)` is the n-th reading of the clock and `sender(n)` what comes of the n-th request. Nothing
     * else uses the store meanwhile.
     */
    method RunOnce(log: seq<Entry>, syncClock: nat -> nat, clock: nat -> nat, sender: nat -> Sent)
      returns (r: Outcome<Counts, OutboxError>, claims: nat)
      requires Valid()
      modifies store
      ensures var synced := Sync(old(store.Contents()), log, endpoints, 0, sensitive, syncClock, 0);
              var rows := synced.outbox.deliveries;
              && SameContents(synced.outbox, store.Contents())
              && claims <= Budget(rows, byId)
              && (synced.reply.Raised? ==> r == Raised(synced.reply.error) && store.Contents() == synced.outbox)
              && (r.Returned? ==>
                    && r.value.enqueued == synced.reply.value
                    && r.value.delivered + r.value.retried + r.value.dead == claims
                    && r.value.delivered == Successes(sender, claims)
                    && Having(store.deliveries, Delivered) == Having(rows, Delivered) + r.value.delivered
                    && Having(store.deliveries, Dead) == Having(rows, Dead) + r.value.dead
                    && forall key | key in store.deliveries :: !Due(store.deliveries[key], clock(2 * claims)))
    {
      hide Budget, Having, Sync, RoundLeft, Spent, Deliveries.ClaimDue, GotThrough, SameContents, Tallied;
      claims := 0;
      var enqueued := SyncOutbox(log, syncClock);
      ghost var synced := store.Contents();
      SameContentsAtOnce(synced);
      BudgetIsNotNegative(synced.deliveries, byId);
      if enqueued.Raised? {
        return Raised(enqueued.error), 0;
      }
      var counts := Counts(enqueued.value, 0, 0, 0);
      TallyStarts(synced, byId, enqueued.value, sender);
      while true
        invariant Tallied(synced, store.Contents(), byId, enqueued.value, counts, claims, sender)
        invariant 0 <= Budget(store.deliveries, byId)
        decreases Budget(store.deliveries, byId)
      {
        ghost var before := store.Contents();
        var round, claimed := DeliverNext(clock(2 * claims), sender(claims), clock(2 * claims + 1));
        if round.Raised? {
          TallyBounds(synced, before, store.Contents(), byId, enqueued.value, counts, claims, sender);
          return Raised(round.error), claims + claimed;
        }
        if round.value.NothingDue? {
          TallyEnds(synced, before, store.Contents(), byId, enqueued.value, counts, claims, sender);
          TallySays(synced, store.Contents(), byId, enqueued.value, counts, claims, sender);
          return Returned(counts), claims;
        }
        TallyGoesOn(synced, before, store.Contents(), byId, enqueued.value, counts, claims, sender, round.value);
        claims := claims + 1;
        match round.value {
          case Sending => counts := counts.(delivered := counts.delivered + 1);
          case Retrying => counts := counts.(retried := counts.retried + 1);
          case GivingUp => counts := counts.(dead := counts.dead + 1);
        }
      }
    }
  }
}
