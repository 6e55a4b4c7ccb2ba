/**
 * The life of one action, read off its own receipts. `Fold` replays them; it ends `Illegal` if a receipt
 * could not have followed the earlier ones.
 */
module Lifecycle {
  import opened Basics
  import opened JsonValues
  import opened RuntimeModels
  import opened Transactions

  /** `renewed` is when approval was last requested; `started` is when execution last began. */
  datatype Life =
    | Unborn
    | Live(effect: Effect, digest: Digest, status: Status, decidedBy: Option<string>, decisionReason: Option<string>,
           error: Option<string>, renewed: nat, started: Option<nat>)
    | Illegal

  function RawText(detail: Option<Text>): Option<string> {
    if detail.Some? && detail.value.Raw? then Some(detail.value.text) else None
  }

  function Born(r: Receipt, effect: Effect): Life {
    Live(effect, r.digest, EarlierStatus(effect), if effect == Allow then POLICY else None, None, None, r.timestamp, None)
  }

  /** The deadline of an approval requested at `renewed`. */
  predicate PastDeadline(ttl: Option<nat>, renewed: nat, now: nat) {
    ttl.Some? && now >= renewed + ttl.value
  }

  function Step(ttl: Option<nat>, life: Life, r: Receipt): Life {
    if life.Illegal? then Illegal
    else if life.Unborn? then
      match r.event
      case PolicyAllowed => Born(r, Allow)
      case PolicyDenied => Born(r, Deny)
      case ApprovalRequested => Born(r, RequireApproval)
      case _ => Illegal
    else if r.digest != life.digest then Illegal
    else
      match r.event
      case ApprovalGranted =>
        if life.status == Pending then life.(status := Approved, decidedBy := r.actor, decisionReason := RawText(r.detail)) else Illegal
      case ApprovalRejected =>
        if life.status == Pending then life.(status := Rejected, decidedBy := r.actor, decisionReason := RawText(r.detail)) else Illegal
      case ApprovalLapsed =>
        if life.status in {Pending, Approved} && life.effect == RequireApproval && PastDeadline(ttl, life.renewed, r.timestamp)
        then life.(status := Expired) else Illegal
      case ExecutionStarted =>
        if life.status == Approved && !(life.effect == RequireApproval && PastDeadline(ttl, life.renewed, r.timestamp))
        then life.(status := Executing, started := Some(r.timestamp)) else Illegal
      case ExecutionSucceeded =>
        if life.status == Executing then life.(status := Succeeded, error := None) else Illegal
      case ExecutionUnknown =>
        if life.status == Executing then life.(status := Unknown, error := RawText(r.detail)) else Illegal
      case ExecutionAbandoned =>
        if life.status == Executing then life.(status := Unknown, error := RawText(r.detail)) else Illegal
      case ReconciledCommitted =>
        if life.status == Unknown then life.(status := Succeeded, error := None) else Illegal
      case ReconciledNotCommitted =>
        if life.status != Unknown then Illegal
        else if life.effect == Allow then
          life.(status := Approved, decidedBy := POLICY, decisionReason := None, error := None)
        else if life.effect == RequireApproval then
          life.(status := Pending, decidedBy := None, decisionReason := None, error := None, renewed := r.timestamp)
        else Illegal
      case ResultReplayed => if life.status == Succeeded then life else Illegal
      case PauseBlocked => if life.status == Approved then life else Illegal
      case LimitBlocked => if life.status == Approved then life else Illegal
      case _ => Illegal
  }

  function Fold(ttl: Option<nat>, own: seq<Receipt>): Life {
    if own == [] then Unborn else Step(ttl, Fold(ttl, own[..|own| - 1]), own[|own| - 1])
  }

  /** The receipts of one action, in log order. */
  function Own(receipts: seq<Receipt>, id: string): seq<Receipt> {
    if receipts == [] then []
    else
      var earlier := Own(receipts[..|receipts| - 1], id);
      var last := receipts[|receipts| - 1];
      if last.actionId == id then earlier + [last] else earlier
  }

  function LifeOf(t: Tables, id: string): Life
    requires id in t.actions
  {
    Fold(t.actions[id].approvalTtl, Own(t.receipts, id))
  }

  /** The stored row says what its receipts say. */
  predicate Matches(row: Action, life: Life) {
    && life.Live?
    && life.effect == row.effect && life.digest == row.digest && life.status == row.status
    && life.decidedBy == row.decidedBy && life.decisionReason == row.decisionReason && life.error == row.error
    && (row.status in {Pending, Approved} ==>
          row.expiresAt == if row.effect == RequireApproval then Deadline(row.approvalTtl, life.renewed) else None)
    && (row.status == Executing ==> row.leaseExpiresAt.Some?)
    && (row.result.Some? <==> row.status == Succeeded)
    && (row.effect == Deny ==> row.status == Denied)
    && (row.status in {Executing, Unknown, Succeeded} ==> life.started.Some?)
  }

  predicate SoundRow(t: Tables, id: string)
    requires id in t.actions
  {
    var row := t.actions[id];
    && row.actionId == id
    && row.digest == RequestDigest(RequestOf(row))
    && row.namespace != ANY && row.tool != ANY
    && Matches(row, LifeOf(t, id))
  }

  predicate SoundRows(t: Tables) {
    && (forall id | id in t.actions :: SoundRow(t, id))
    && (forall r <- t.receipts :: r.actionId in t.actions)
  }

  /** The unique index names each row by its key. */
  predicate SoundIndex(t: Tables) {
    && (forall id | id in t.actions :: RowKey(t.actions[id]) in t.index && t.index[RowKey(t.actions[id])] == id)
    && (forall key | key in t.index :: t.index[key] in t.actions && RowKey(t.actions[t.index[key]]) == key)
  }

  lemma OwnAppended(receipts: seq<Receipt>, r: Receipt, id: string)
    ensures Own(receipts + [r], id) == if r.actionId == id then Own(receipts, id) + [r] else Own(receipts, id)
  {
    assert (receipts + [r])[..|receipts|] == receipts;
  }

  lemma FoldAppended(ttl: Option<nat>, own: seq<Receipt>, r: Receipt)
    ensures Fold(ttl, own + [r]) == Step(ttl, Fold(ttl, own), r)
  {
    assert (own + [r])[..|own|] == own;
  }

  lemma {:induction false} OwnIsEmpty(receipts: seq<Receipt>, id: string)
    requires forall r <- receipts :: r.actionId != id
    ensures Own(receipts, id) == []
  {
    if receipts != [] {
      OwnIsEmpty(receipts[..|receipts| - 1], id);
    }
  }

  /** The receipt a transaction appends. */
  function Appended(t: Tables, id: string, event: Event, now: nat, digest: Digest, actor: Option<string>,
                    detail: Option<Text>): Receipt {
    var longer := AppendReceipt(t.receipts, id, event, now, digest, actor, detail);
    longer[|longer| - 1]
  }

  /** The life before a row is written. */
  function LifeBefore(t: Tables, id: string): Life {
    if id in t.actions then LifeOf(t, id) else Unborn
  }

  /** A row may be written with a receipt that takes its life to what the row says. */
  predicate Legal(t: Tables, id: string, row: Action, event: Event, now: nat, actor: Option<string>,
                  detail: Option<Text>) {
    && row.actionId == id
    && row.digest == RequestDigest(RequestOf(row))
    && row.namespace != ANY && row.tool != ANY
    && (id in t.actions ==> row.approvalTtl == t.actions[id].approvalTtl && RowKey(row) == RowKey(t.actions[id]))
    && (id !in t.actions ==> RowKey(row) !in t.index)
    && Matches(row, Step(row.approvalTtl, LifeBefore(t, id), Appended(t, id, event, now, row.digest, actor, detail)))
  }

  /** Writing one row adds one step to its life and none to any other. */
  lemma LivesAfterRecord(t: Tables, id: string, row: Action, event: Event, now: nat, actor: Option<string>,
                         detail: Option<Text>)
    requires forall r <- t.receipts :: r.actionId in t.actions
    requires id in t.actions ==> row.approvalTtl == t.actions[id].approvalTtl
    ensures LifeOf(Record(t, id, row, event, now, actor, detail), id)
         == Step(row.approvalTtl, LifeBefore(t, id), Appended(t, id, event, now, row.digest, actor, detail))
    ensures forall other | other in t.actions && other != id ::
              LifeOf(Record(t, id, row, event, now, actor, detail), other) == LifeOf(t, other)
  {
    var r := Appended(t, id, event, now, row.digest, actor, detail);
    assert Record(t, id, row, event, now, actor, detail).receipts == t.receipts + [r];
    OwnAppended(t.receipts, r, id);
    FoldAppended(row.approvalTtl, Own(t.receipts, id), r);
    if id !in t.actions {
      OwnIsEmpty(t.receipts, id);
    }
    forall other | other in t.actions && other != id
      ensures LifeOf(Record(t, id, row, event, now, actor, detail), other) == LifeOf(t, other)
    {
      OwnAppended(t.receipts, r, other);
    }
  }

  lemma RecordKeepsRows(t: Tables, id: string, row: Action, event: Event, now: nat, actor: Option<string>,
                        detail: Option<Text>)
    requires SoundRows(t) && Legal(t, id, row, event, now, actor, detail)
    ensures SoundRows(Record(t, id, row, event, now, actor, detail))
  {
    var t1 := Record(t, id, row, event, now, actor, detail);
    LivesAfterRecord(t, id, row, event, now, actor, detail);
    forall other | other in t1.actions ensures SoundRow(t1, other) {
      assert other != id ==> SoundRow(t, other);
    }
  }

  lemma RecordKeepsIndex(t: Tables, id: string, row: Action, event: Event, now: nat, actor: Option<string>,
                         detail: Option<Text>)
    requires SoundIndex(t) && Legal(t, id, row, event, now, actor, detail)
    ensures SoundIndex(Record(t, id, row, event, now, actor, detail))
  {
  }

  lemma NoteIsRecord(t: Tables, id: string, event: Event, now: nat, detail: Option<Text>)
    requires SoundIndex(t) && id in t.actions
    ensures Note(t, id, t.actions[id], event, now, detail) == Record(t, id, t.actions[id], event, now, RUNTIME, detail)
  {
  }
}
