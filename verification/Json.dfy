/** JSON values. The canonical encoding of a value is injective, so a value stands for its encoding. */
module JsonValues {
  import opened Basics

  datatype Json =
    | Null
    | Bool(flag: bool)
    | Int(number: int)
    | Float(fraction: real)
    | Str(text: string)
    | Arr(items: seq<Json>)
    | Obj(members: map<string, Json>)

  /** A text column: free text, or the canonical encoding of a JSON value. */
  datatype Text = Raw(text: string) | Encoded(json: Json)

  /**
   * What a Python tool hands back. Many objects share one JSON encoding (`form` tells them apart);
   * the others have none, and encoding them raises.
   */
  datatype PyValue = Encodable(json: Json, form: nat) | Opaque(form: nat)

  function Loaded(json: Json): PyValue {
    Encodable(json, 0)
  }

  /** A dotted path split at its dots. */
  function Segments(path: string): (segments: seq<string>)
    ensures |segments| > 0
  {
    if path == "" then [""]
    else if path[0] == '.' then [""] + Segments(path[1..])
    else
      var rest := Segments(path[1..]);
      [[path[0]] + rest[0]] + rest[1..]
  }

  /** The non-negative integer at a path of object keys; booleans, floats and strings are not coerced. */
  function IntegerAt(json: Json, path: seq<string>): Option<nat> {
    if path == [] then
      if json.Int? && json.number >= 0 then Some(json.number) else None
    else if json.Obj? && path[0] in json.members then
      IntegerAt(json.members[path[0]], path[1..])
    else None
  }

  function TextOrNull(text: Option<string>): Json {
    if text.Some? then Str(text.value) else Null
  }

  function IntOrNull(number: Option<int>): Json {
    if number.Some? then Int(number.value) else Null
  }

  /** One step into a value: a member of an object, or an item of an array. */
  datatype Hop = Key(key: string) | Index(i: nat)

  function At(json: Json, pointer: seq<Hop>): Option<Json> {
    if pointer == [] then Some(json)
    else
      match pointer[0]
      case Key(key) => if json.Obj? && key in json.members then At(json.members[key], pointer[1..]) else None
      case Index(i) => if json.Arr? && i < |json.items| then At(json.items[i], pointer[1..]) else None
  }
}
