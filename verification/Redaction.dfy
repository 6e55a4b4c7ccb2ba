/**
 * Redaction of the arguments a webhook exports. The source walks a detached copy and overwrites members of it;
 * here a JSON value is rebuilt. Which keys are sensitive is a parameter.
 */
module Redaction {
  import opened Basics
  import opened JsonValues

  const MARKER: Json := Str("[REDACTED]")

  type Path = p: seq<string> | |p| > 0 witness [""]

  function RedactSensitive(json: Json, sensitive: string -> bool): Json {
    match json
    case Obj(members) =>
      Obj(map key | key in members :: if sensitive(key) then MARKER else RedactSensitive(members[key], sensitive))
    case Arr(items) => Arr(seq(|items|, i requires 0 <= i < |items| => RedactSensitive(items[i], sensitive)))
    case _ => json
  }

  /** Overwrites what a path of object keys leads to; a missing key or another kind of value ends the walk. */
  function RedactPath(json: Json, path: Path): Json
    decreases |path|
  {
    if !json.Obj? || path[0] !in json.members then json
    else if |path| == 1 then Obj(json.members[path[0] := MARKER])
    else Obj(json.members[path[0] := RedactPath(json.members[path[0]], path[1..])])
  }

  function RedactPaths(json: Json, paths: seq<Path>): Json {
    if paths == [] then json else RedactPath(RedactPaths(json, paths[..|paths| - 1]), paths[|paths| - 1])
  }

  function Redact(arguments: Json, sensitive: string -> bool, paths: seq<Path>): Json {
    RedactPaths(RedactSensitive(arguments, sensitive), paths)
  }

  /** Sensitive keys first, then one configured path after the other. */
  method RedactArguments(arguments: Json, sensitive: string -> bool, paths: seq<Path>) returns (copied: Json)
    ensures copied == Redact(arguments, sensitive, paths)
  {
    copied := RedactSensitive(arguments, sensitive);
    for i := 0 to |paths|
      invariant copied == RedactPaths(RedactSensitive(arguments, sensitive), paths[..i])
    {
      assert paths[..i + 1][..i] == paths[..i];
      copied := RedactPath(copied, paths[i]);
    }
    assert paths[..|paths|] == paths;
  }

  // ---------- nothing sensitive survives ----------

  /** No sensitive key keeps a value, at any depth. */
  predicate Clean(json: Json, sensitive: string -> bool) {
    match json
    case Obj(members) =>
      forall key | key in members :: (sensitive(key) ==> members[key] == MARKER) && Clean(members[key], sensitive)
    case Arr(items) => forall i | 0 <= i < |items| :: Clean(items[i], sensitive)
    case _ => true
  }

  lemma {:induction false} SensitiveIsClean(json: Json, sensitive: string -> bool)
    ensures Clean(RedactSensitive(json, sensitive), sensitive)
  {
    match json
    case Obj(members) =>
      forall key | key in members ensures Clean(RedactSensitive(members[key], sensitive), sensitive) {
        SensitiveIsClean(members[key], sensitive);
      }
    case Arr(items) =>
      forall i | 0 <= i < |items| ensures Clean(RedactSensitive(items[i], sensitive), sensitive) {
        SensitiveIsClean(items[i], sensitive);
      }
    case _ =>
  }

  lemma {:induction false} PathKeepsClean(json: Json, sensitive: string -> bool, path: Path)
    requires Clean(json, sensitive)
    ensures Clean(RedactPath(json, path), sensitive)
    ensures json == MARKER ==> RedactPath(json, path) == MARKER
    decreases |path|
  {
    if json.Obj? && path[0] in json.members && |path| > 1 {
      PathKeepsClean(json.members[path[0]], sensitive, path[1..]);
    }
  }

  lemma {:induction false} PathsKeepClean(json: Json, sensitive: string -> bool, paths: seq<Path>)
    requires Clean(json, sensitive)
    ensures Clean(RedactPaths(json, paths), sensitive)
  {
    if paths != [] {
      PathsKeepClean(json, sensitive, paths[..|paths| - 1]);
      PathKeepsClean(RedactPaths(json, paths[..|paths| - 1]), sensitive, paths[|paths| - 1]);
    }
  }

  /** The exported arguments hold no value of a sensitive key at any depth. */
  lemma NothingSensitiveSurvives(arguments: Json, sensitive: string -> bool, paths: seq<Path>)
    ensures Clean(Redact(arguments, sensitive, paths), sensitive)
  {
    SensitiveIsClean(arguments, sensitive);
    PathsKeepClean(RedactSensitive(arguments, sensitive), sensitive, paths);
  }

  lemma {:induction false} CleanIsFixed(json: Json, sensitive: string -> bool)
    requires Clean(json, sensitive)
    ensures RedactSensitive(json, sensitive) == json
  {
    match json
    case Obj(members) =>
      forall key | key in members ensures RedactSensitive(members[key], sensitive) == members[key] {
        CleanIsFixed(members[key], sensitive);
      }
      assert RedactSensitive(json, sensitive).members == members;
    case Arr(items) =>
      forall i | 0 <= i < |items| ensures RedactSensitive(items[i], sensitive) == items[i] {
        CleanIsFixed(items[i], sensitive);
      }
      assert RedactSensitive(json, sensitive).items == items;
    case _ =>
  }

  // ---------- configured paths ----------

  /** The path ends at the marker, or stops earlier at a missing key or at a value that is not an object. */
  predicate Closed(json: Json, path: Path)
    decreases |path|
  {
    json.Obj? && path[0] in json.members ==>
      if |path| == 1 then json.members[path[0]] == MARKER else Closed(json.members[path[0]], path[1..])
  }

  lemma {:induction false} ClosedIsFixed(json: Json, path: Path)
    ensures Closed(json, path) <==> RedactPath(json, path) == json
    ensures Closed(RedactPath(json, path), path)
    decreases |path|
  {
    if json.Obj? && path[0] in json.members {
      if |path| > 1 {
        ClosedIsFixed(json.members[path[0]], path[1..]);
      }
      assert json.members[path[0] := json.members[path[0]]] == json.members;
      if RedactPath(json, path) == json {
        assert json.members[path[0]] == RedactPath(json, path).members[path[0]];
      }
    }
  }

  lemma {:induction false} PathsCommute(json: Json, p: Path, q: Path)
    ensures RedactPath(RedactPath(json, p), q) == RedactPath(RedactPath(json, q), p)
    decreases |p|
  {
    if json.Obj? && p[0] in json.members && q[0] in json.members {
      var members := json.members;
      if p[0] == q[0] {
        if |p| > 1 && |q| > 1 {
          PathsCommute(members[p[0]], p[1..], q[1..]);
          var a, b := RedactPath(members[p[0]], p[1..]), RedactPath(members[p[0]], q[1..]);
          assert members[p[0] := a][p[0] := RedactPath(a, q[1..])] == members[p[0] := b][p[0] := RedactPath(b, p[1..])];
        } else {
          assert RedactPath(RedactPath(json, p), q).members == members[p[0] := MARKER];
          assert RedactPath(RedactPath(json, q), p).members == members[p[0] := MARKER];
        }
      } else {
        assert RedactPath(RedactPath(json, p), q).members == RedactPath(RedactPath(json, q), p).members;
      }
    }
  }

  lemma {:induction false} PathCommutesWithPaths(json: Json, paths: seq<Path>, q: Path)
    ensures RedactPath(RedactPaths(json, paths), q) == RedactPaths(RedactPath(json, q), paths)
  {
    if paths != [] {
      var n := |paths| - 1;
      PathsCommute(RedactPaths(json, paths[..n]), paths[n], q);
      PathCommutesWithPaths(json, paths[..n], q);
    }
  }

  /** Every configured path is closed in the result. */
  lemma {:induction false} EveryPathIsClosed(json: Json, paths: seq<Path>, q: Path)
    requires q in paths
    ensures Closed(RedactPaths(json, paths), q)
  {
    var n := |paths| - 1;
    var before := RedactPaths(json, paths[..n]);
    if paths[n] == q {
      ClosedIsFixed(before, q);
    } else {
      EveryPathIsClosed(json, paths[..n], q);
      ClosedIsFixed(before, q);
      PathsCommute(before, paths[n], q);
      ClosedIsFixed(RedactPath(before, paths[n]), q);
    }
  }

  lemma {:induction false} PathListsCommute(json: Json, ps: seq<Path>, qs: seq<Path>)
    ensures RedactPaths(RedactPaths(json, ps), qs) == RedactPaths(RedactPaths(json, qs), ps)
  {
    if qs != [] {
      var n := |qs| - 1;
      PathListsCommute(json, ps, qs[..n]);
      PathCommutesWithPaths(RedactPaths(json, qs[..n]), ps, qs[n]);
    }
  }

  lemma {:induction false} ClosedPathsAreFixed(json: Json, paths: seq<Path>)
    requires forall q <- paths :: Closed(json, q)
    ensures RedactPaths(json, paths) == json
  {
    if paths != [] {
      ClosedPathsAreFixed(json, paths[..|paths| - 1]);
      ClosedIsFixed(json, paths[|paths| - 1]);
    }
  }

  /** The result depends on which paths are configured, not on their order or repetition. */
  lemma PathOrderIsIrrelevant(arguments: Json, sensitive: string -> bool, ps: seq<Path>, qs: seq<Path>)
    requires forall p :: p in ps <==> p in qs
    ensures Redact(arguments, sensitive, ps) == Redact(arguments, sensitive, qs)
  {
    var json := RedactSensitive(arguments, sensitive);
    forall q | q in qs ensures Closed(RedactPaths(json, ps), q) { EveryPathIsClosed(json, ps, q); }
    forall p | p in ps ensures Closed(RedactPaths(json, qs), p) { EveryPathIsClosed(json, qs, p); }
    ClosedPathsAreFixed(RedactPaths(json, ps), qs);
    ClosedPathsAreFixed(RedactPaths(json, qs), ps);
    PathListsCommute(json, ps, qs);
  }

  /** Redacting twice changes nothing more. */
  lemma RedactionIsIdempotent(arguments: Json, sensitive: string -> bool, paths: seq<Path>)
    ensures Redact(Redact(arguments, sensitive, paths), sensitive, paths) == Redact(arguments, sensitive, paths)
  {
    var once := Redact(arguments, sensitive, paths);
    NothingSensitiveSurvives(arguments, sensitive, paths);
    CleanIsFixed(once, sensitive);
    forall q | q in paths ensures Closed(once, q) {
      EveryPathIsClosed(RedactSensitive(arguments, sensitive), paths, q);
    }
    ClosedPathsAreFixed(once, paths);
  }

  // ---------- all else is unchanged ----------

  /** No step of the pointer is a sensitive key. */
  predicate AvoidsSensitive(pointer: seq<Hop>, sensitive: string -> bool) {
    forall i | 0 <= i < |pointer| && pointer[i].Key? :: !sensitive(pointer[i].key)
  }

  /** The pointer does not pass through the end of the path. */
  predicate AvoidsPath(pointer: seq<Hop>, path: Path) {
    |pointer| < |path| || exists i | 0 <= i < |path| :: pointer[i] != Key(path[i])
  }

  /** The same value, or containers with the same keys or the same length. */
  predicate SameNode(a: Option<Json>, b: Option<Json>) {
    match (a, b)
    case (Some(Obj(m)), Some(Obj(n))) => m.Keys == n.Keys
    case (Some(Arr(x)), Some(Arr(y))) => |x| == |y|
    case _ => a == b
  }

  lemma {:induction false} SensitiveSparesOthers(json: Json, sensitive: string -> bool, pointer: seq<Hop>)
    requires AvoidsSensitive(pointer, sensitive)
    ensures SameNode(At(RedactSensitive(json, sensitive), pointer), At(json, pointer))
    decreases |pointer|
  {
    if pointer != [] {
      assert AvoidsSensitive(pointer[1..], sensitive);
      if pointer[0].Key? && json.Obj? && pointer[0].key in json.members {
        SensitiveSparesOthers(json.members[pointer[0].key], sensitive, pointer[1..]);
      } else if pointer[0].Index? && json.Arr? && pointer[0].i < |json.items| {
        SensitiveSparesOthers(json.items[pointer[0].i], sensitive, pointer[1..]);
      }
    }
  }

  lemma {:induction false} PathSparesOthers(json: Json, path: Path, pointer: seq<Hop>)
    requires AvoidsPath(pointer, path)
    ensures SameNode(At(RedactPath(json, path), pointer), At(json, pointer))
    decreases |pointer|
  {
    if pointer != [] && json.Obj? && path[0] in json.members && pointer[0] == Key(path[0]) && |path| > 1 {
      if |pointer| >= |path| {
        var i :| 0 <= i < |path| && pointer[i] != Key(path[i]);
        assert pointer[1..][i - 1] != Key(path[1..][i - 1]);
      }
      PathSparesOthers(json.members[path[0]], path[1..], pointer[1..]);
    }
  }

  lemma {:induction false} PathsSpareOthers(json: Json, paths: seq<Path>, pointer: seq<Hop>)
    requires forall path <- paths :: AvoidsPath(pointer, path)
    ensures SameNode(At(RedactPaths(json, paths), pointer), At(json, pointer))
  {
    if paths != [] {
      PathsSpareOthers(json, paths[..|paths| - 1], pointer);
      PathSparesOthers(RedactPaths(json, paths[..|paths| - 1]), paths[|paths| - 1], pointer);
    }
  }

  /** A value that lies behind no sensitive key and no configured path is exported as it is. */
  lemma OthersAreUnchanged(arguments: Json, sensitive: string -> bool, paths: seq<Path>, pointer: seq<Hop>)
    requires AvoidsSensitive(pointer, sensitive) && forall path <- paths :: AvoidsPath(pointer, path)
    ensures SameNode(At(Redact(arguments, sensitive, paths), pointer), At(arguments, pointer))
  {
    SensitiveSparesOthers(arguments, sensitive, pointer);
    PathsSpareOthers(RedactSensitive(arguments, sensitive), paths, pointer);
  }
}
