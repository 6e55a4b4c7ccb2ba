/** What each transaction of the notification queue promises, and how an answer of the API is judged. */
module SlackLaws {
  import opened Basics
  import opened Retries
  import opened RuntimeModels
  import opened SlackBoards
  import TableOrder

  // ---------- filling and claiming ----------

  /** An action is enqueued once; later calls find it, or raise under another digest or channel. */
  lemma EnqueuesExactly(b: Board, id: string, digest: Digest, channel: string, now: nat)
    ensures var tx := Enqueue(b, id, digest, channel, now);
            if id !in b then
              && tx.reply == Returned(true) && tx.board.Keys == b.Keys + {id} && (forall other | other in b :: tx.board[other] == b[other])
              && (var n := tx.board[id];
                  && n.digest == digest && n.channel == channel && n.status == Waiting && n.attempts == 0 && n.nextAttemptAt == now
                  && n.lease == None && n.owner == None && n.messageTs == None && n.statusCode == None && n.error == None
                  && n.decidedBy == None && n.decision == None && n.decidedAt == None)
            else
              && tx.board == b
              && tx.reply == if b[id].digest == digest && b[id].channel == channel then Returned(false) else Raised(BindingChanged)
  {
  }

  predicate Lost(n: Notification, now: nat) {
    n.status == Posting && n.lease.Some? && n.lease.value <= now
  }

  /** It may be claimed now. */
  predicate Claimable(n: Notification, now: nat) {
    Lost(n, now) || (n.status == Waiting && n.nextAttemptAt <= now)
  }

  /** What becomes of a notification that is not handed out. */
  function LetGo(n: Notification, now: nat): Notification {
    if Lost(n, now) then n.(status := Waiting, owner := None, lease := None, nextAttemptAt := now) else n
  }

  function Rank(b: Board, id: string, now: nat): TableOrder.Key
    requires id in b
  {
    TableOrder.Key(if Lost(b[id], now) then now else b[id].nextAttemptAt, id)
  }

  /** A claim hands out the claimable notification that was due first, under a fresh lease, and lets the other lost ones go. */
  lemma ClaimsExactly(b: Board, lease: nat, worker: string, now: nat)
    ensures var tx := ClaimDue(b, lease, worker, now);
            && tx.board.Keys == b.Keys
            && (Blank(worker) ==> tx == Tx(b, Raised(InvalidInput)))
            && (!Blank(worker) ==> tx.reply.Returned?)
            && (tx.reply == Returned(None) ==> tx.board == b && forall id | id in b :: !Claimable(b[id], now))
            && (tx.reply.Returned? && tx.reply.value.Some? ==>
                  var c := tx.reply.value.value;
                  && c.actionId in b && Claimable(b[c.actionId], now)
                  && (forall id | id in b && Claimable(b[id], now) ::
                        id == c.actionId || TableOrder.Before(Rank(b, c.actionId, now), Rank(b, id, now)))
                  && c.digest == b[c.actionId].digest && c.channel == b[c.actionId].channel && c.attempts == b[c.actionId].attempts + 1
                  && tx.board[c.actionId]
                     == LetGo(b[c.actionId], now).(status := Posting, attempts := c.attempts, owner := Some(worker), lease := Some(now + lease))
                  && forall id | id in b && id != c.actionId :: tx.board[id] == LetGo(b[id], now))
  {
    hide FirstDue;
    var rows := Reclaimed(b, now);
    assert rows.Keys == b.Keys;
    assert forall id | id in rows :: rows[id] == LetGo(b[id], now) && RankOf(rows, id) == Rank(b, id, now);
    assert forall id | id in rows :: Due(rows[id], now) <==> Claimable(b[id], now);
    if FirstDue(rows, now).None? {
      assert forall id | id in rows :: rows[id] == b[id];
      assert rows == b;
    }
  }

  // ---------- finishing ----------

  /** The worker is posting it now. */
  predicate Posts(b: Board, id: string, worker: string) {
    id in b && b[id].status == Posting && b[id].owner == Some(worker)
  }

  lemma PostsExactly(b: Board, id: string, worker: string, ts: string, code: int)
    ensures var tx := MarkPosted(b, id, worker, ts, code);
            && (tx.reply.Returned? <==> MessageTs(ts) && 100 <= code <= 599 && Posts(b, id, worker))
            && tx.board == if tx.reply.Raised? then b
                           else b[id := b[id].(status := Posted, messageTs := Some(ts), statusCode := Some(code), error := None, owner := None,
                                               lease := None)]
  {
    hide MessageTs;
  }

  /** A failure that may be retried, before the last attempt, is repeated after its wait; any other is final. */
  lemma FailsExactly(b: Board, claimed: Claimed, worker: string, config: Config, code: Option<int>, error: string, retryable: bool,
                     retryAfter: Option<nat>, now: nat)
    ensures var tx := MarkFailed(b, claimed, worker, config, code, error, retryable, retryAfter, now);
            && (tx.reply.Returned? <==> SafeCode(error) && Posts(b, claimed.actionId, worker))
            && (tx.reply.Raised? ==> tx.board == b)
            && (tx.reply.Returned? ==>
                  && tx.reply.value == (!retryable || claimed.attempts >= config.maxAttempts)
                  && tx.board
                     == b[claimed.actionId := b[claimed.actionId].(
                            status := if tx.reply.value then Dead else Waiting,
                            nextAttemptAt := if tx.reply.value then now else now + Backoff(config, claimed.attempts, retryAfter),
                            statusCode := code, error := Some(error), owner := None, lease := None)])
  {
    hide SafeCode, Backoff;
  }

  /** The wait is the exponential one, or longer if the server asks for longer, up to the maximum. */
  lemma WaitsExactly(config: Config, attempts: Tries, retryAfter: Option<nat>)
    ensures var wait := Wait(config.initialBackoff, config.maxBackoff, attempts);
            Backoff(config, attempts, retryAfter)
            == if retryAfter.None? || retryAfter.value <= wait then wait
               else if retryAfter.value <= config.maxBackoff then retryAfter.value else config.maxBackoff
  {
  }

  lemma DropsExactly(b: Board, id: string, worker: string, reason: string)
    ensures var tx := MarkObsolete(b, id, worker, reason);
            && (tx.reply.Returned? <==> SafeCode(reason) && Posts(b, id, worker))
            && tx.board == if tx.reply.Raised? then b
                           else b[id := b[id].(status := Obsolete, error := Some(reason), owner := None, lease := None)]
  {
    hide SafeCode;
  }

  lemma DecidesExactly(b: Board, id: string, digest: Digest, reviewer: string, decision: Decision, now: nat)
    ensures var tx := MarkDecided(b, id, digest, reviewer, decision, now);
            && (tx.reply.Returned? <==> id in b && b[id].digest == digest)
            && tx.board == if tx.reply.Raised? then b
                           else b[id := b[id].(status := Settled, decidedBy := Some(reviewer), decision := Some(decision), decidedAt := Some(now))]
  {
  }

  lemma RetriesExactly(b: Board, id: string, now: nat)
    ensures var tx := RetryDead(b, id, now);
            && (tx.reply.Returned? <==> id in b && b[id].status == Dead)
            && tx.board == if tx.reply.Raised? then b
                           else b[id := b[id].(status := Waiting, attempts := 0, nextAttemptAt := now, owner := None, lease := None, error := None)]
  {
  }

  /** A number of one to twenty digits. */
  predicate Number(text: string) {
    1 <= |text| <= 20 && forall c <- text :: c in "0123456789"
  }

  /** A message timestamp is two such numbers with a dot between them. */
  lemma TimestampsExactly(text: string)
    ensures MessageTs(text) <==> exists seconds, fraction :: text == seconds + "." + fraction && Number(seconds) && Number(fraction)
  {
    NumbersAreDigits();
    hide Digits, Number;
    if MessageTs(text) {
      var dot :| 0 <= dot < |text| && text[dot] == '.' && Digits(text[..dot]) && Digits(text[dot + 1..]);
      assert text == text[..dot] + "." + text[dot + 1..];
    }
    if seconds, fraction :| text == seconds + "." + fraction && Number(seconds) && Number(fraction) {
      assert text[..|seconds|] == seconds && text[|seconds| + 1..] == fraction && text[|seconds|] == '.';
    }
  }

  lemma NumbersAreDigits()
    ensures forall text :: Number(text) <==> Digits(text)
    ensures forall c :: IsDigit(c) <==> c in "0123456789"
  {
    forall c ensures IsDigit(c) <==> c in "0123456789" {
      if IsDigit(c) {
        assert "0123456789"[(c - '0') as int] == c;
      }
    }
  }

  /** A notification is posted exactly for an action that is still pending under its digest; the reason not to says what is amiss. */
  lemma ObsoleteExactly(action: Option<Action>, digest: Digest)
    ensures Obsolescence(action, digest).None? <==> action.Some? && action.value.digest == digest && action.value.status == Pending
    ensures action.None? ==> Obsolescence(action, digest) == Some("ActionMissing")
    ensures action.Some? && action.value.digest != digest ==> Obsolescence(action, digest) == Some("BindingChanged")
  {
  }

  // ---------- judging an answer ----------

  predicate Upper(c: char) {
    c in "ABCDEFGHIJKLM" || c in "NOPQRSTUVWXYZ"
  }

  predicate Lower(c: char) {
    c in "abcdefghijklm" || c in "nopqrstuvwxyz"
  }

  /** A code is safe to record exactly if it is one to 64 letters, digits, dots, underscores and dashes. */
  lemma SafeExactly(text: string)
    ensures SafeCode(text) <==> 1 <= |text| <= 64 && forall c <- text :: Upper(c) || Lower(c) || c in "0123456789" || c in "._-"
  {
    NumbersAreDigits();
    hide Upper, Lower, IsDigit;
    forall c: char ensures Upper(c) <==> 'A' <= c <= 'Z' {
      UpperIsRange(c);
    }
    forall c: char ensures Lower(c) <==> 'a' <= c <= 'z' {
      LowerIsRange(c);
    }
  }

  lemma UpperIsRange(c: char)
    ensures Upper(c) <==> 'A' <= c <= 'Z'
  {
    if 'A' <= c <= 'M' {
      assert "ABCDEFGHIJKLM"[(c - 'A') as int] == c;
    } else if 'N' <= c <= 'Z' {
      assert "NOPQRSTUVWXYZ"[(c - 'N') as int] == c;
    }
  }

  lemma LowerIsRange(c: char)
    ensures Lower(c) <==> 'a' <= c <= 'z'
  {
    if 'a' <= c <= 'm' {
      assert "abcdefghijklm"[(c - 'a') as int] == c;
    } else if 'n' <= c <= 'z' {
      assert "nopqrstuvwxyz"[(c - 'n') as int] == c;
    }
  }

  /** The code recorded for a failure: its own if it is safe to record. */
  predicate Records(code: string, own: string) {
    code == if SafeCode(own) then own else "SlackAPIError"
  }

  /** The number that a text of digits shows. */
  function Shows(text: string): nat {
    if text == "" then 0 else 10 * Shows(text[..|text| - 1]) + if '0' <= text[|text| - 1] <= '9' then (text[|text| - 1] - '0') as int else 0
  }

  lemma {:induction false} DecimalShows(n: nat)
    ensures Shows(Decimal(n)) == n && |Decimal(n)| > 0 && forall c <- Decimal(n) :: IsDigit(c)
  {
    var last := "0123456789"[n % 10];
    assert Decimal(n)[|Decimal(n)| - 1] == last && Decimal(n)[..|Decimal(n)| - 1] == if n < 10 then "" else Decimal(n / 10);
    assert (last - '0') as int == n % 10 && IsDigit(last);
    if n >= 10 {
      DecimalShows(n / 10);
    }
  }

  /**
   * An answer is refused for good unless the server said to come back, broke, or said so by one of four codes; a call that
   * broke is retried.
   */
  lemma JudgesExactly(r: Response, channel: string)
    ensures match r
            case Failed(exception) =>
              var j := Judged(r, channel);
              j.Refused? && Records(j.code, exception) && j.answered == None && j.retryable && j.retryAfter == None
            case Response(status, ok, error, answered, ts, retryAfter) =>
              var j := Judged(r, channel);
              if 200 <= status <= 299 && ok then
                if answered == Some(channel) && ts.Some? then j == Accepted(ts.value, status)
                else j == Refused("InvalidPostResponse", Some(status), false, None)
              else
                var own := if error.Some? then error.value else "HTTP" + (if status < 0 then "-" + Decimal(-status) else Decimal(status));
                && j.Refused? && Records(j.code, own) && j.answered == Some(status) && j.retryAfter == retryAfter
                && (j.retryable
                    <==> status == 429 || status >= 500
                         || own in {"ratelimited", "internal_error", "fatal_error", "service_unavailable"})
  {
    SafePostResponse();
    hide SafeCode;
  }

  lemma SafePostResponse()
    ensures SafeCode("InvalidPostResponse")
  {
  }
}
