/** The two hash chains: the audit receipts and the control receipts. */
module ReceiptChain {
  import opened Basics
  import opened JsonValues
  import opened RuntimeModels
  import opened Transactions

  function HashOf(r: Receipt): Hash {
    Hash(r.actionId, r.event, r.timestamp, r.digest, r.actor, r.detail, r.previousHash)
  }

  function LastHash(rs: seq<Receipt>): Option<Hash> {
    if rs == [] then None else Some(rs[|rs| - 1].receiptHash)
  }

  /** Every receipt names its predecessor's hash and carries the hash of its own columns. */
  predicate WellLinked(rs: seq<Receipt>) {
    forall i | 0 <= i < |rs| :: rs[i].previousHash == LastHash(rs[..i]) && rs[i].receiptHash == HashOf(rs[i])
  }

  /** Sequence numbers count from one without gaps. */
  predicate Numbered(rs: seq<Receipt>) {
    forall i | 0 <= i < |rs| :: rs[i].sequence == i + 1
  }

  lemma WellLinkedPrefix(rs: seq<Receipt>, n: nat)
    requires n <= |rs| && WellLinked(rs)
    ensures WellLinked(rs[..n])
  {
    forall i | 0 <= i < n ensures rs[..n][..i] == rs[..i] {}
  }

  lemma AppendKeepsLinks(rs: seq<Receipt>, id: string, event: Event, now: nat, digest: Digest,
                         actor: Option<string>, detail: Option<Text>)
    requires WellLinked(rs)
    ensures WellLinked(AppendReceipt(rs, id, event, now, digest, actor, detail))
  {
    var longer := AppendReceipt(rs, id, event, now, digest, actor, detail);
    forall i | 0 <= i < |longer|
      ensures longer[i].previousHash == LastHash(longer[..i]) && longer[i].receiptHash == HashOf(longer[i])
    {
      assert longer[..i] == rs[..i];
      assert rs[..|rs|] == rs;
    }
  }

  lemma AppendKeepsNumbers(rs: seq<Receipt>, id: string, event: Event, now: nat, digest: Digest,
                           actor: Option<string>, detail: Option<Text>)
    requires Numbered(rs)
    ensures Numbered(AppendReceipt(rs, id, event, now, digest, actor, detail))
  {
  }

  /** A log without its sequence column, which is not hashed. */
  function Hashed(rs: seq<Receipt>): (r: seq<Receipt>)
    ensures |r| == |rs| && forall i | 0 <= i < |rs| :: r[i] == rs[i].(sequence := 0)
  {
    if rs == [] then [] else Hashed(rs[..|rs| - 1]) + [rs[|rs| - 1].(sequence := 0)]
  }

  /**
   * The last hash seals the log: two verified logs that end in one hash have the same length and
   * agree on everything that is hashed.
   */
  lemma {:induction false} LastHashSealsLog(a: seq<Receipt>, b: seq<Receipt>)
    requires WellLinked(a) && WellLinked(b) && LastHash(a) == LastHash(b)
    ensures Hashed(a) == Hashed(b)
    decreases |a|
  {
    if a == [] || b == [] {
      assert a == [] && b == [];
    } else {
      LastReceiptsAgree(a, b);
      LastHashSealsLog(a[..|a| - 1], b[..|b| - 1]);
    }
  }

  lemma LastReceiptsAgree(a: seq<Receipt>, b: seq<Receipt>)
    requires WellLinked(a) && WellLinked(b) && LastHash(a) == LastHash(b) && a != [] && b != []
    ensures a[|a| - 1].(sequence := 0) == b[|b| - 1].(sequence := 0)
    ensures WellLinked(a[..|a| - 1]) && WellLinked(b[..|b| - 1]) && LastHash(a[..|a| - 1]) == LastHash(b[..|b| - 1])
  {
    LastLink(a);
    LastLink(b);
    SameHashSameReceipt(a[|a| - 1], b[|b| - 1]);
    hide *;
  }

  lemma SameHashSameReceipt(r: Receipt, s: Receipt)
    requires r.receiptHash == HashOf(r) && s.receiptHash == HashOf(s) && r.receiptHash == s.receiptHash
    ensures r.(sequence := 0) == s.(sequence := 0)
  {
  }

  lemma LastLink(a: seq<Receipt>)
    requires WellLinked(a) && a != []
    ensures var n := |a| - 1;
            && LastHash(a) == Some(a[n].receiptHash) && a[n].previousHash == LastHash(a[..n])
            && a[n].receiptHash == HashOf(a[n]) && WellLinked(a[..n])
  {
    WellLinkedPrefix(a, |a| - 1);
  }

  // ---------- control receipts ----------

  function ControlHashOf(r: ControlReceipt): ControlHash {
    ControlHash(r.event, r.timestamp, r.actor, r.scope, r.detail, r.previousHash)
  }

  function LastControlHash(rs: seq<ControlReceipt>): Option<ControlHash> {
    if rs == [] then None else Some(rs[|rs| - 1].receiptHash)
  }

  predicate ControlsLinked(rs: seq<ControlReceipt>) {
    forall i | 0 <= i < |rs| :: rs[i].previousHash == LastControlHash(rs[..i]) && rs[i].receiptHash == ControlHashOf(rs[i])
  }

  lemma ControlsLinkedPrefix(rs: seq<ControlReceipt>, n: nat)
    requires n <= |rs| && ControlsLinked(rs)
    ensures ControlsLinked(rs[..n])
  {
    forall i | 0 <= i < n ensures rs[..n][..i] == rs[..i] {}
  }

  lemma AppendKeepsControlLinks(rs: seq<ControlReceipt>, event: ControlEvent, now: nat, actor: string, scope: Json,
                                detail: Text)
    requires ControlsLinked(rs)
    ensures ControlsLinked(AppendControl(rs, event, now, actor, scope, detail))
  {
    var longer := AppendControl(rs, event, now, actor, scope, detail);
    forall i | 0 <= i < |longer|
      ensures longer[i].previousHash == LastControlHash(longer[..i]) && longer[i].receiptHash == ControlHashOf(longer[i])
    {
      assert longer[..i] == rs[..i];
      assert rs[..|rs|] == rs;
    }
  }

  function HashedControls(rs: seq<ControlReceipt>): (r: seq<ControlReceipt>)
    ensures |r| == |rs| && forall i | 0 <= i < |rs| :: r[i] == rs[i].(sequence := 0)
  {
    if rs == [] then [] else HashedControls(rs[..|rs| - 1]) + [rs[|rs| - 1].(sequence := 0)]
  }

  lemma {:induction false} LastControlHashSealsLog(a: seq<ControlReceipt>, b: seq<ControlReceipt>)
    requires ControlsLinked(a) && ControlsLinked(b) && LastControlHash(a) == LastControlHash(b)
    ensures HashedControls(a) == HashedControls(b)
    decreases |a|
  {
    if a == [] || b == [] {
      assert a == [] && b == [];
    } else {
      LastControlsAgree(a, b);
      LastControlHashSealsLog(a[..|a| - 1], b[..|b| - 1]);
    }
  }

  lemma LastControlsAgree(a: seq<ControlReceipt>, b: seq<ControlReceipt>)
    requires ControlsLinked(a) && ControlsLinked(b) && LastControlHash(a) == LastControlHash(b) && a != [] && b != []
    ensures a[|a| - 1].(sequence := 0) == b[|b| - 1].(sequence := 0)
    ensures ControlsLinked(a[..|a| - 1]) && ControlsLinked(b[..|b| - 1])
    ensures LastControlHash(a[..|a| - 1]) == LastControlHash(b[..|b| - 1])
  {
    LastControlLink(a);
    LastControlLink(b);
    SameHashSameControl(a[|a| - 1], b[|b| - 1]);
    hide *;
  }

  lemma SameHashSameControl(r: ControlReceipt, s: ControlReceipt)
    requires r.receiptHash == ControlHashOf(r) && s.receiptHash == ControlHashOf(s) && r.receiptHash == s.receiptHash
    ensures r.(sequence := 0) == s.(sequence := 0)
  {
  }

  lemma LastControlLink(a: seq<ControlReceipt>)
    requires ControlsLinked(a) && a != []
    ensures var n := |a| - 1;
            && LastControlHash(a) == Some(a[n].receiptHash) && a[n].previousHash == LastControlHash(a[..n])
            && a[n].receiptHash == ControlHashOf(a[n]) && ControlsLinked(a[..n])
  {
    ControlsLinkedPrefix(a, |a| - 1);
  }
}
