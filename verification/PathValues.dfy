/** What a dotted path means: which keys it spells, and which integer arguments hold there. */
module PathValues {
  import opened Basics
  import opened JsonValues

  function Joined(keys: seq<string>): string
    requires |keys| > 0
  {
    if |keys| == 1 then keys[0] else keys[0] + "." + Joined(keys[1..])
  }

  /** The keys, none of which contains a dot, joined by dots give the path. */
  predicate Spells(keys: seq<string>, path: string) {
    |keys| > 0 && (forall key <- keys :: '.' !in key) && Joined(keys) == path
  }

  /** The pointer that follows one key after another. */
  function Hops(keys: seq<string>): (pointer: seq<Hop>)
    ensures |pointer| == |keys| && forall i | 0 <= i < |keys| :: pointer[i] == Key(keys[i])
  {
    seq(|keys|, i requires 0 <= i < |keys| => Key(keys[i]))
  }

  /** The arguments hold the non-negative integer `n` where the keys of the path lead. */
  ghost predicate Holds(arguments: Json, path: string, n: int) {
    n >= 0 && exists keys :: Spells(keys, path) && At(arguments, Hops(keys)) == Some(Int(n))
  }

  /** Splitting a path at its dots gives the keys it spells. */
  lemma {:induction false} SegmentsSpell(path: string)
    ensures Spells(Segments(path), path)
  {
    if path != "" {
      var keys := Segments(path);
      var rest := Segments(path[1..]);
      SegmentsSpell(path[1..]);
      if path[0] == '.' {
        assert keys == [""] + rest && keys[1..] == rest;
        assert Joined(keys) == "" + "." + Joined(rest) == path;
      } else {
        assert keys[0] == [path[0]] + rest[0] && keys[1..] == rest[1..];
        forall key <- keys ensures '.' !in key {
          if key != keys[0] {
            assert key in rest;
          }
        }
        if |rest| == 1 {
          assert Joined(keys) == [path[0]] + Joined(rest);
        } else {
          assert Joined(keys) == [path[0]] + rest[0] + "." + Joined(rest[1..]) == [path[0]] + Joined(rest);
        }
        assert path == [path[0]] + path[1..];
      }
    }
  }

  lemma JoinedStart(keys: seq<string>)
    requires |keys| > 0
    ensures |keys| == 1 ==> Joined(keys) == keys[0]
    ensures |keys| > 1 ==>
              && |keys[0]| < |Joined(keys)| && Joined(keys)[..|keys[0]|] == keys[0] && Joined(keys)[|keys[0]|] == '.'
              && Joined(keys)[|keys[0]| + 1..] == Joined(keys[1..])
  {
  }

  lemma FirstKeyIsNoLonger(a: seq<string>, b: seq<string>, path: string)
    requires Spells(a, path) && Spells(b, path)
    ensures |a[0]| >= |b[0]|
  {
    JoinedStart(a);
    JoinedStart(b);
    assert b[0] in b && path[..|b[0]|] == b[0];
    assert forall i | 0 <= i < |b[0]| :: path[i] == b[0][i] && path[i] != '.';
  }

  /** A path spells one list of keys only. */
  lemma {:induction false} SpellingIsUnique(a: seq<string>, b: seq<string>, path: string)
    requires Spells(a, path) && Spells(b, path)
    ensures a == b
    decreases |a|
  {
    FirstKeyIsNoLonger(a, b, path);
    FirstKeyIsNoLonger(b, a, path);
    JoinedStart(a);
    JoinedStart(b);
    assert a == [a[0]] + a[1..] && b == [b[0]] + b[1..];
    if |a| > 1 && |b| > 1 {
      SpellingIsUnique(a[1..], b[1..], path[|a[0]| + 1..]);
    }
  }

  lemma {:induction false} IntegerAtFollowsKeys(json: Json, keys: seq<string>, n: nat)
    ensures IntegerAt(json, keys) == Some(n) <==> At(json, Hops(keys)) == Some(Int(n))
  {
    if keys == [] {
      assert Hops(keys) == [];
    } else {
      assert Hops(keys)[1..] == Hops(keys[1..]);
      if json.Obj? && keys[0] in json.members {
        IntegerAtFollowsKeys(json.members[keys[0]], keys[1..], n);
      }
    }
  }

  /** Extraction reads exactly the integer the arguments hold at the path. */
  lemma ExtractionReads(arguments: Json, path: string, n: nat)
    ensures IntegerAt(arguments, Segments(path)) == Some(n) <==> Holds(arguments, path, n)
  {
    SegmentsSpell(path);
    IntegerAtFollowsKeys(arguments, Segments(path), n);
    forall keys | Spells(keys, path) ensures keys == Segments(path) {
      SpellingIsUnique(keys, Segments(path), path);
    }
  }
}
