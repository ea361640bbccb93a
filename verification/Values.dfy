/** Runtime values, as JavaScript sees them, and the JSON values among them. */
module Values {

  datatype Option<+T> = None | Some(value: T)

  datatype Result<+T, +E> = Ok(value: T) | Err(error: E)

  function Front<T>(s: seq<T>): seq<T>
    requires s != []
  {
    s[..|s| - 1]
  }

  function LastOf<T>(s: seq<T>): T
    requires s != []
  {
    s[|s| - 1]
  }

  /** `Undefined` is the absence of a value; an object may also hold it under a present key. */
  datatype Value =
    | Undefined
    | Null
    | Bool(flag: bool)
    | Num(number: real)
    | Str(text: string)
    | Arr(items: seq<Value>)
    | Obj(props: map<string, Value>)

  /** The values a JSON document can hold: no `Undefined` at any depth. */
  predicate IsJson(v: Value) {
    match v
    case Undefined => false
    case Arr(items) => forall x | x in items :: IsJson(x)
    case Obj(props) => forall k | k in props :: IsJson(props[k])
    case _ => true
  }

  type Json = v: Value | IsJson(v) witness Null

  /** The values that `===` compares by content. */
  predicate IsPrimitive(v: Value) {
    v.Null? || v.Bool? || v.Num? || v.Str?
  }

  /** `data[key]`: reading an absent key gives `Undefined`. */
  function Lookup(props: map<string, Value>, key: string): Value {
    if key in props then props[key] else Undefined
  }

  /** `text.length`: UTF-16 code units, two for each character above U+FFFF. */
  function CodeUnits(s: string): nat {
    if s == "" then 0
    else CodeUnits(s[..|s| - 1]) + if s[|s| - 1] as int > 0xFFFF then 2 else 1
  }

  predicate IsBmp(s: string) {
    forall i | 0 <= i < |s| :: s[i] as int <= 0xFFFF
  }

  /** No string inside `v`, keys aside, has a character above U+FFFF. */
  predicate IsBmpValue(v: Value) {
    match v
    case Str(s) => IsBmp(s)
    case Arr(items) => forall x | x in items :: IsBmpValue(x)
    case Obj(props) => forall k | k in props :: IsBmpValue(props[k])
    case _ => true
  }

  lemma {:induction false} CodeUnitsBounds(s: string)
    ensures |s| <= CodeUnits(s)
    ensures CodeUnits(s) == |s| <==> IsBmp(s)
  {
    if s != "" {
      CodeUnitsBounds(s[..|s| - 1]);
    }
  }
}
