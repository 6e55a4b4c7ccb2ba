/** What one worker's pass over the outbox does: filling it, and the budget of claims that draining it spends. */
module Passes {
  import opened Basics
  import opened RuntimeModels
  import opened Deliveries
  import opened OutboxSync
  import opened Retries
  import opened Sums

  // ---------- filling ----------

  predicate DistinctIds(endpoints: seq<Endpoint>) {
    forall i, j | 0 <= i < j < |endpoints| :: endpoints[i].id != endpoints[j].id
  }

  /** One endpoint registered, selected for and enqueued. */
  function Turn(o: Outbox, log: seq<Entry>, endpoint: Endpoint, sensitive: string -> bool, now: nat): Tx<nat> {
    var registered := Register(o, endpoint, |log|);
    if registered.reply.Raised? then registered
    else
      var items := Select(log, |log|, registered.reply.value, endpoint, sensitive);
      if items.None? then Tx(registered.outbox, Raised(NoStatus)) else Enqueue(registered.outbox, endpoint, items.value, |log|, now)
  }

  /** A turn for every endpoint from `i` on; the first error ends the pass. */
  function Sync(o: Outbox, log: seq<Entry>, endpoints: seq<Endpoint>, i: nat, sensitive: string -> bool,
                clock: nat -> nat, inserted: nat): Tx<nat>
    requires i <= |endpoints|
    decreases |endpoints| - i
  {
    if i == |endpoints| then Tx(o, Returned(inserted))
    else
      var turn := Turn(o, log, endpoints[i], sensitive, clock(i));
      if turn.reply.Raised? then turn else Sync(turn.outbox, log, endpoints, i + 1, sensitive, clock, inserted + turn.reply.value)
  }

  lemma {:induction false} SelectionStaysFailed(log: seq<Entry>, seen: nat, later: nat, checkpoint: nat,
                                                endpoint: Endpoint, sensitive: string -> bool)
    requires seen <= later <= |log| && Select(log, seen, checkpoint, endpoint, sensitive).None?
    ensures Select(log, later, checkpoint, endpoint, sensitive).None?
  {
    if seen < later {
      SelectionStaysFailed(log, seen, later - 1, checkpoint, endpoint, sensitive);
    }
  }

  // ---------- draining ----------

  /** What comes of one request. */
  datatype Sent = Status(code: int) | Failed(exception: string)

  /** How one round of the loop ended. */
  datatype Round = NothingDue | Sending | Retrying | GivingUp

  /** What a round does with the outbox that its claim left. */
  ghost predicate RoundLeft(claimed: Outbox, after: Outbox, c: Claimed, worker: string, configured: map<string, Endpoint>, sent: Sent,
                            now: nat, round: Round) {
    c.key.endpointId in configured &&
    match sent
    case Status(code) =>
      if 200 <= code <= 299 then
        var tx := MarkDelivered(claimed, c.key, worker, code, now);
        tx.reply.Returned? && after == tx.outbox && round == Sending
      else
        var tx := MarkFailed(claimed, c, worker, configured[c.key.endpointId], Some(code), "HTTPError", now);
        tx.reply.Returned? && after == tx.outbox && round == if tx.reply.value then GivingUp else Retrying
    case Failed(exception) =>
      var tx := MarkFailed(claimed, c, worker, configured[c.key.endpointId], None,
                           if |exception| <= 128 then exception else exception[..128], now);
      tx.reply.Returned? && after == tx.outbox && round == if tx.reply.value then GivingUp else Retrying
  }

  /** How many of the first `n` requests were answered with success. */
  function Successes(sender: nat -> Sent, n: nat): nat {
    if n == 0 then 0
    else Successes(sender, n - 1) + if GotThrough(sender(n - 1)) then 1 else 0
  }

  predicate GotThrough(sent: Sent) {
    sent.Status? && 200 <= sent.code <= 299
  }

  function MaxTries(key: DeliveryKey, configured: map<string, Endpoint>): nat {
    if key.endpointId in configured then configured[key.endpointId].maxAttempts else 0
  }

  /** Claims an unfinished delivery can still cost. */
  function Cost(rows: map<DeliveryKey, Delivery>, configured: map<string, Endpoint>, key: DeliveryKey): nat {
    if key !in rows || rows[key].status in {Delivered, Dead} then 0 else Left(MaxTries(key, configured), rows[key].attempts)
  }

  ghost function Budget(rows: map<DeliveryKey, Delivery>, configured: map<string, Endpoint>): int {
    Sum(rows.Keys, key => Cost(rows, configured, key))
  }

  function WithStatus(rows: map<DeliveryKey, Delivery>, status: DeliveryStatus): set<DeliveryKey> {
    set key | key in rows && rows[key].status == status
  }

  /** How many deliveries have this status. */
  function Having(rows: map<DeliveryKey, Delivery>, status: DeliveryStatus): nat {
    |WithStatus(rows, status)|
  }

  lemma BudgetIsNotNegative(rows: map<DeliveryKey, Delivery>, configured: map<string, Endpoint>)
    ensures Budget(rows, configured) >= 0
  {
    SumIsNotNegative(rows.Keys, key => Cost(rows, configured, key));
  }

  /** The two tables differ in one row, as far as status and attempts go. */
  predicate DifferAt(a: map<DeliveryKey, Delivery>, b: map<DeliveryKey, Delivery>, key: DeliveryKey) {
    && key in a && a.Keys == b.Keys
    && forall other | other in a && other != key :: a[other].status == b[other].status && a[other].attempts == b[other].attempts
  }

  lemma BudgetChanges(a: map<DeliveryKey, Delivery>, b: map<DeliveryKey, Delivery>, configured: map<string, Endpoint>,
                      key: DeliveryKey)
    requires DifferAt(a, b, key)
    ensures Budget(b, configured) == Budget(a, configured) - Cost(a, configured, key) + Cost(b, configured, key)
  {
    SumChangesAt(a.Keys, k => Cost(a, configured, k), k => Cost(b, configured, k), key);
  }

  lemma CountChanges(a: map<DeliveryKey, Delivery>, b: map<DeliveryKey, Delivery>, key: DeliveryKey,
                     status: DeliveryStatus)
    requires DifferAt(a, b, key)
    ensures Having(b, status) == Having(a, status) - (if a[key].status == status then 1 else 0) + (if b[key].status == status then 1 else 0)
  {
    assert key in b;
    assert WithStatus(a, status) - {key} == WithStatus(b, status) - {key} by {
      forall k ensures k in WithStatus(a, status) - {key} <==> k in WithStatus(b, status) - {key} {}
    }
    CountOne(WithStatus(a, status), key);
    CountOne(WithStatus(b, status), key);
  }

  lemma CountOne<K>(keys: set<K>, k: K)
    ensures |keys| == |keys - {k}| + if k in keys then 1 else 0
  {
    if k in keys {
      assert keys == (keys - {k}) + {k};
    } else {
      assert keys == keys - {k};
    }
  }

  /** One changed row moves the budget by the change of its own cost, and each count by the row itself. */
  lemma RowChanges(a: map<DeliveryKey, Delivery>, b: map<DeliveryKey, Delivery>, configured: map<string, Endpoint>,
                   key: DeliveryKey)
    requires DifferAt(a, b, key)
    ensures Budget(b, configured) == Budget(a, configured) - Cost(a, configured, key) + Cost(b, configured, key)
    ensures forall status | status in {Delivered, Dead} ::
              Having(b, status) == Having(a, status) - (if a[key].status == status then 1 else 0) + (if b[key].status == status then 1 else 0)
  {
    hide Budget, Having, Cost;
    BudgetChanges(a, b, configured, key);
    CountChanges(a, b, key, Delivered);
    CountChanges(a, b, key, Dead);
  }

  /** Reclaiming costs nothing and finishes nothing. */
  lemma ReclaimSpendsNothing(rows: map<DeliveryKey, Delivery>, configured: map<string, Endpoint>, now: nat)
    ensures Budget(Reclaimed(rows, now), configured) == Budget(rows, configured)
    ensures forall status | status in {Delivered, Dead} :: Having(Reclaimed(rows, now), status) == Having(rows, status)
  {
    var after := Reclaimed(rows, now);
    assert after.Keys == rows.Keys;
    SumOfEqualTerms(rows.Keys, k => Cost(rows, configured, k), k => Cost(after, configured, k));
    forall status | status in {Delivered, Dead} ensures Having(after, status) == Having(rows, status) {
      assert WithStatus(rows, status) == WithStatus(after, status);
    }
  }

  /** A worker holds the delivery it claimed, and the claim is still to be paid for out of the budget before it. */
  ghost predicate Holding(before: Outbox, held: Outbox, configured: map<string, Endpoint>, claimed: Claimed,
                          worker: string) {
    && Owned(held, claimed.key, worker)
    && held.deliveries[claimed.key].attempts == claimed.attempts
    && Budget(held.deliveries, configured) - Cost(held.deliveries, configured, claimed.key)
       + Left(MaxTries(claimed.key, configured), claimed.attempts - 1)
       == Budget(before.deliveries, configured)
    && Budget(before.deliveries, configured) >= 1
    && forall status | status in {Delivered, Dead} :: Having(held.deliveries, status) == Having(before.deliveries, status)
  }

  lemma ClaimSpends(o: Outbox, configured: map<string, Endpoint>, lease: nat, worker: string, now: nat)
    ensures var tx := ClaimDue(o, lease, worker, now);
            && (tx.reply.Raised? ==> tx.outbox == o)
            && (tx.reply == Returned(None) ==>
                  && Budget(tx.outbox.deliveries, configured) == Budget(o.deliveries, configured)
                  && (forall status | status in {Delivered, Dead} :: Having(tx.outbox.deliveries, status) == Having(o.deliveries, status))
                  && forall key | key in tx.outbox.deliveries :: !Due(tx.outbox.deliveries[key], now))
            && (tx.reply.Returned? && tx.reply.value.Some? ==> Holding(o, tx.outbox, configured, tx.reply.value.value, worker))
  {
    hide FirstDue, Reclaimed, Budget, Having, Sum;
    var tx := ClaimDue(o, lease, worker, now);
    ReclaimSpendsNothing(o.deliveries, configured, now);
    if tx.reply.Returned? && tx.reply.value.Some? {
      var key := tx.reply.value.value.key;
      RowChanges(Reclaimed(o.deliveries, now), tx.outbox.deliveries, configured, key);
      OthersCostSomething(tx.outbox.deliveries, configured, key);
    }
  }

  lemma OthersCostSomething(rows: map<DeliveryKey, Delivery>, configured: map<string, Endpoint>, key: DeliveryKey)
    requires key in rows
    ensures Budget(rows, configured) >= Cost(rows, configured, key)
  {
    SumTakesOut(rows.Keys, k => Cost(rows, configured, k), key);
    SumIsNotNegative(rows.Keys - {key}, k => Cost(rows, configured, k));
  }

  lemma DeliverSpends(before: Outbox, held: Outbox, configured: map<string, Endpoint>, claimed: Claimed, worker: string,
                      code: int, now: nat)
    requires Holding(before, held, configured, claimed, worker) && 100 <= code <= 599
    ensures var tx := MarkDelivered(held, claimed.key, worker, code, now);
            && tx.reply.Returned?
            && Budget(tx.outbox.deliveries, configured) < Budget(before.deliveries, configured)
            && Having(tx.outbox.deliveries, Delivered) == Having(before.deliveries, Delivered) + 1
            && Having(tx.outbox.deliveries, Dead) == Having(before.deliveries, Dead)
  {
    hide Budget, Having, Sum;
    RowChanges(held.deliveries, MarkDelivered(held, claimed.key, worker, code, now).outbox.deliveries, configured, claimed.key);
  }

  lemma FailSpends(before: Outbox, held: Outbox, configured: map<string, Endpoint>, claimed: Claimed, worker: string,
                   code: Option<int>, error: string, now: nat)
    requires Holding(before, held, configured, claimed, worker) && claimed.key.endpointId in configured
    ensures var tx := MarkFailed(held, claimed, worker, configured[claimed.key.endpointId], code, error, now);
            tx.reply.Returned? ==>
              && Budget(tx.outbox.deliveries, configured) < Budget(before.deliveries, configured)
              && Having(tx.outbox.deliveries, Delivered) == Having(before.deliveries, Delivered)
              && Having(tx.outbox.deliveries, Dead) == Having(before.deliveries, Dead) + if tx.reply.value then 1 else 0
  {
    hide Budget, Having, Sum, Backoff;
    var tx := MarkFailed(held, claimed, worker, configured[claimed.key.endpointId], code, error, now);
    if tx.reply.Returned? {
      RowChanges(held.deliveries, tx.outbox.deliveries, configured, claimed.key);
    }
  }

  /** A round that claims spends the budget and moves exactly one delivery; one that finds nothing due changes no count. */
  ghost predicate Spent(before: Outbox, after: Outbox, configured: map<string, Endpoint>, round: Round) {
    var cost := Budget(before.deliveries, configured) - Budget(after.deliveries, configured);
    && (if round.NothingDue? then cost == 0 else cost >= 1)
    && Having(after.deliveries, Delivered) == Having(before.deliveries, Delivered) + (if round.Sending? then 1 else 0)
    && Having(after.deliveries, Dead) == Having(before.deliveries, Dead) + (if round.GivingUp? then 1 else 0)
  }

  lemma SameContentsChains(a: Outbox, b: Outbox, c: Outbox)
    requires SameContents(a, b) && SameContents(b, c)
    ensures SameContents(a, c)
  {
  }

  // ---------- the counts of a pass ----------

  datatype Counts = Counts(enqueued: nat, delivered: nat, retried: nat, dead: nat)

  function Counted(counts: Counts, round: Round): Counts {
    match round
    case NothingDue => counts
    case Sending => counts.(delivered := counts.delivered + 1)
    case Retrying => counts.(retried := counts.retried + 1)
    case GivingUp => counts.(dead := counts.dead + 1)
  }

  /** After some claims since `start`, the counts say what became of them, and the budget has paid for them. */
  ghost predicate Tallied(start: Outbox, o: Outbox, configured: map<string, Endpoint>, enqueued: nat, counts: Counts, claims: nat,
                          sender: nat -> Sent) {
    && SameContents(start, o)
    && Budget(o.deliveries, configured) >= 0
    && claims <= Budget(start.deliveries, configured) - Budget(o.deliveries, configured)
    && counts.enqueued == enqueued && counts.delivered + counts.retried + counts.dead == claims
    && counts.delivered == Successes(sender, claims)
    && Having(o.deliveries, Delivered) == Having(start.deliveries, Delivered) + counts.delivered
    && Having(o.deliveries, Dead) == Having(start.deliveries, Dead) + counts.dead
  }

  lemma TallyStarts(start: Outbox, configured: map<string, Endpoint>, enqueued: nat, sender: nat -> Sent)
    ensures Tallied(start, start, configured, enqueued, Counts(enqueued, 0, 0, 0), 0, sender)
  {
    BudgetIsNotNegative(start.deliveries, configured);
    hide Budget, Having;
  }

  lemma TallyGoesOn(start: Outbox, before: Outbox, after: Outbox, configured: map<string, Endpoint>, enqueued: nat, counts: Counts,
                    claims: nat, sender: nat -> Sent, round: Round)
    requires Tallied(start, before, configured, enqueued, counts, claims, sender) && SameContents(before, after)
    requires Spent(before, after, configured, round) && (round == Sending <==> GotThrough(sender(claims)))
    ensures round != NothingDue ==>
              && Tallied(start, after, configured, enqueued, Counted(counts, round), claims + 1, sender)
              && 0 <= Budget(after.deliveries, configured) < Budget(before.deliveries, configured)
  {
    SameContentsChains(start, before, after);
    BudgetIsNotNegative(after.deliveries, configured);
    hide Budget, Having, SameContents, GotThrough;
  }

  lemma TallyEnds(start: Outbox, before: Outbox, after: Outbox, configured: map<string, Endpoint>, enqueued: nat, counts: Counts,
                  claims: nat, sender: nat -> Sent)
    requires Tallied(start, before, configured, enqueued, counts, claims, sender) && SameContents(before, after)
    requires Spent(before, after, configured, NothingDue)
    ensures Tallied(start, after, configured, enqueued, counts, claims, sender)
  {
    SameContentsChains(start, before, after);
    hide Budget, Having, SameContents;
  }

  lemma SameContentsAtOnce(o: Outbox)
    ensures SameContents(o, o)
  {
  }

  /** A round that raises claims at most once more, which the budget still covers. */
  lemma TallyBounds(start: Outbox, before: Outbox, after: Outbox, configured: map<string, Endpoint>, enqueued: nat, counts: Counts,
                    claims: nat, sender: nat -> Sent)
    requires Tallied(start, before, configured, enqueued, counts, claims, sender) && SameContents(before, after)
    ensures SameContents(start, after) && claims <= Budget(start.deliveries, configured)
    ensures Budget(before.deliveries, configured) >= 1 ==> claims + 1 <= Budget(start.deliveries, configured)
  {
    SameContentsChains(start, before, after);
    hide Budget, Having, SameContents;
  }

  lemma TallySays(start: Outbox, o: Outbox, configured: map<string, Endpoint>, enqueued: nat, counts: Counts, claims: nat,
                  sender: nat -> Sent)
    requires Tallied(start, o, configured, enqueued, counts, claims, sender)
    ensures SameContents(start, o) && claims <= Budget(start.deliveries, configured)
    ensures counts.enqueued == enqueued && counts.delivered + counts.retried + counts.dead == claims
    ensures counts.delivered == Successes(sender, claims)
    ensures Having(o.deliveries, Delivered) == Having(start.deliveries, Delivered) + counts.delivered
    ensures Having(o.deliveries, Dead) == Having(start.deliveries, Dead) + counts.dead
  {
    hide Budget, Having, SameContents;
  }
}
