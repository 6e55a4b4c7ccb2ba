/** `ORDER BY` over a table's keys. */
module TableOrder {

  /** A row's sort key: a number first, then the text of its identifier. */
  datatype Key = Key(rank: int, id: string)

  /** Code-point order of text, which is the database's binary order of its UTF-8 encoding. */
  predicate TextLess(a: string, b: string) {
    if a == "" then b != ""
    else if b == "" then false
    else a[0] < b[0] || (a[0] == b[0] && TextLess(a[1..], b[1..]))
  }

  predicate Before(a: Key, b: Key) {
    a.rank < b.rank || (a.rank == b.rank && TextLess(a.id, b.id))
  }

  lemma {:induction false} TextLessIsTotal(a: string, b: string)
    ensures TextLess(a, b) || TextLess(b, a) || a == b
    ensures !(TextLess(a, b) && TextLess(b, a))
    ensures !TextLess(a, a)
  {
    if a != "" && b != "" {
      TextLessIsTotal(a[1..], b[1..]);
      TextLessIsTotal(a[1..], a[1..]);
      assert a == [a[0]] + a[1..];
      assert b == [b[0]] + b[1..];
    } else if a != "" {
      TextLessIsTotal(a[1..], a[1..]);
    }
  }

  lemma {:induction false} TextLessIsTransitive(a: string, b: string, c: string)
    requires TextLess(a, b) && TextLess(b, c)
    ensures TextLess(a, c)
  {
    if a != "" && a[0] == b[0] == c[0] {
      TextLessIsTransitive(a[1..], b[1..], c[1..]);
    }
  }

  /** The texts agree up to `i`; there the first one ends, or has the smaller character. */
  predicate DifferAt(a: string, b: string, i: nat) {
    && i <= |a| && i < |b| && a[..i] == b[..i]
    && (i == |a| || a[i] < b[i])
  }

  lemma AgreeAtStart(a: string, b: string, i: nat)
    requires 0 < i <= |a| && i <= |b| && a[..i] == b[..i]
    ensures a[0] == b[0]
  {
    assert a[..i][0] == b[..i][0];
  }

  /** One text comes before another exactly at the first place where they differ. */
  lemma {:induction false} TextLessExactly(a: string, b: string)
    ensures TextLess(a, b) <==> exists i: nat :: DifferAt(a, b, i)
  {
    if a == "" || b == "" {
      assert b != "" ==> DifferAt(a, b, 0);
    } else if a[0] != b[0] {
      assert a[0] < b[0] ==> DifferAt(a, b, 0);
      forall i: nat | DifferAt(a, b, i) ensures i == 0 {
        if i > 0 {
          AgreeAtStart(a, b, i);
        }
      }
    } else {
      TextLessExactly(a[1..], b[1..]);
      if i: nat :| DifferAt(a[1..], b[1..], i) {
        assert a == [a[0]] + a[1..] && b == [b[0]] + b[1..];
        assert a[..i + 1] == [a[0]] + a[1..][..i] && b[..i + 1] == [b[0]] + b[1..][..i];
        assert DifferAt(a, b, i + 1);
      }
      forall i: nat | DifferAt(a, b, i) ensures i > 0 && DifferAt(a[1..], b[1..], i - 1) {
        assert i > 0;
        assert a[1..][..i - 1] == a[..i][1..] && b[1..][..i - 1] == b[..i][1..];
      }
    }
  }

  predicate IsFirst(k: Key, keys: set<Key>) {
    k in keys && forall other | other in keys :: other == k || Before(k, other)
  }

  lemma {:induction false} FirstExists(keys: set<Key>)
    requires keys != {}
    ensures exists k :: IsFirst(k, keys)
  {
    var some :| some in keys;
    var rest := keys - {some};
    if rest == {} {
      assert keys == {some};
      assert IsFirst(some, keys);
    } else {
      FirstExists(rest);
      var least :| IsFirst(least, rest);
      TextLessIsTotal(some.id, least.id);
      if Before(some, least) {
        forall other | other in keys ensures other == some || Before(some, other) {
          assert other == some || other in rest;
          if other != some && other != least && some.rank == least.rank == other.rank {
            TextLessIsTransitive(some.id, least.id, other.id);
          }
        }
        assert IsFirst(some, keys);
      } else {
        assert IsFirst(least, keys);
      }
    }
  }

  lemma FirstIsUnique(a: Key, b: Key, keys: set<Key>)
    requires IsFirst(a, keys) && IsFirst(b, keys)
    ensures a == b
  {
    TextLessIsTotal(a.id, b.id);
  }

  /** The keys in ascending order. */
  function Sorted(keys: set<Key>): (r: seq<Key>)
    ensures forall k :: k in r <==> k in keys
    ensures forall i, j | 0 <= i < j < |r| :: Before(r[i], r[j])
  {
    if keys == {} then []
    else
      FirstExists(keys);
      assert forall a, b | IsFirst(a, keys) && IsFirst(b, keys) :: a == b by {
        forall a, b | IsFirst(a, keys) && IsFirst(b, keys) ensures a == b { FirstIsUnique(a, b, keys); }
      }
      var first :| first in keys && IsFirst(first, keys);
      [first] + Sorted(keys - {first})
  }

  /** Identifiers of a table's rows in the order of their keys. */
  function Ids(keys: seq<Key>): (ids: seq<string>)
    ensures |ids| == |keys| && forall i | 0 <= i < |keys| :: ids[i] == keys[i].id
  {
    seq(|keys|, i requires 0 <= i < |keys| => keys[i].id)
  }
}
