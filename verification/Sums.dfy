/** Sums over finite sets, and what one changed term does to them. */
module Sums {

  ghost function Sum<K(!new)>(keys: set<K>, term: K -> int): int {
    if keys == {} then 0
    else
      var k :| k in keys;
      term(k) + Sum(keys - {k}, term)
  }

  /** The order in which terms are added does not matter. */
  lemma {:induction false} SumTakesOut<K(!new)>(keys: set<K>, term: K -> int, k: K)
    requires k in keys
    ensures Sum(keys, term) == term(k) + Sum(keys - {k}, term)
  {
    var first :| first in keys && Sum(keys, term) == term(first) + Sum(keys - {first}, term);
    if first != k {
      SumTakesOut(keys - {first}, term, k);
      SumTakesOut(keys - {k}, term, first);
      assert keys - {first} - {k} == keys - {k} - {first};
    }
  }

  lemma {:induction false} SumOfEqualTerms<K(!new)>(keys: set<K>, a: K -> int, b: K -> int)
    requires forall k | k in keys :: a(k) == b(k)
    ensures Sum(keys, a) == Sum(keys, b)
  {
    if keys != {} {
      var k :| k in keys;
      SumTakesOut(keys, a, k);
      SumTakesOut(keys, b, k);
      SumOfEqualTerms(keys - {k}, a, b);
    }
  }

  lemma SumChangesAt<K(!new)>(keys: set<K>, a: K -> int, b: K -> int, k: K)
    requires k in keys && forall other | other in keys && other != k :: a(other) == b(other)
    ensures Sum(keys, b) == Sum(keys, a) - a(k) + b(k)
  {
    SumTakesOut(keys, a, k);
    SumTakesOut(keys, b, k);
    SumOfEqualTerms(keys - {k}, a, b);
  }

  lemma {:induction false} SumIsNotNegative<K(!new)>(keys: set<K>, term: K -> int)
    requires forall k | k in keys :: term(k) >= 0
    ensures Sum(keys, term) >= 0
  {
    if keys != {} {
      var k :| k in keys;
      SumTakesOut(keys, term, k);
      SumIsNotNegative(keys - {k}, term);
    }
  }
}
