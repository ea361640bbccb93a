/** The schema IR of the seven supported kinds, and what the runtime accepts and returns for it. */
module Schema {
  import opened Values

  // ---- IR ----

  datatype UnknownKeys = Strict | StripUnknown | Passthrough

  datatype RefinementName =
    | MinLength | MaxLength | Length | Regex | Email | Uuid | Url
    | Int | Min | Max | Gt | Lt | MultipleOf
    | MinItems | MaxItems

  datatype Params = NoParams | Bound(value: real) | Pattern(source: string, flags: string)

  /** A portable refinement. */
  datatype Refinement = Refinement(name: RefinementName, params: Params)

  datatype Modifiers = Modifiers(optional: bool, nullable: bool, default: Option<Json>)

  datatype Metadata = Metadata(
    id: Option<string>, version: Option<string>, description: Option<string>, deprecated: Option<bool>)

  /** `order` is the key order of the record `fields`. */
  datatype Kind =
    | StringKind
    | NumberKind
    | BooleanKind
    | Literal(value: Json)
    | Enum(values: seq<Json>)
    | ArrayOf(element: Node)
    | ObjectOf(fields: map<string, Node>, order: seq<string>, unknownKeys: UnknownKeys)

  datatype Node = Node(kind: Kind, mods: Modifiers, refs: seq<Refinement>, meta: Metadata)

  predicate Distinct<T(==)>(s: seq<T>) {
    forall i, j | 0 <= i < j < |s| :: s[i] != s[j]
  }

  /** Every record lists each of its keys once, at every depth. */
  predicate WellKeyed(n: Node) {
    match n.kind
    case ArrayOf(e) => WellKeyed(e)
    case ObjectOf(fields, order, _) =>
      && Distinct(order)
      && (forall k | k in order :: k in fields)
      && (forall k | k in fields :: k in order)
      && forall k | k in fields :: WellKeyed(fields[k])
    case _ => true
  }

  // ---- What a refinement demands ----

  datatype FormatName = EmailFormat | UuidFormat | UriFormat

  /** The string predicates the IR names but does not define. */
  datatype Formats = Formats(
    pattern: (string, string, string) -> bool,
    format: (FormatName, string) -> bool)

  predicate IsInteger(x: real) {
    x.Floor as real == x
  }

  predicate IsCount(x: real) {
    x >= 0.0 && IsInteger(x)
  }

  predicate IsMultipleOf(x: real, m: real) {
    m != 0.0 && IsInteger(x / m)
  }

  /** `String(params.source ?? "")`. */
  function Source(p: Params): string {
    if p.Pattern? then p.source else ""
  }

  function Flags(p: Params): string {
    if p.Pattern? then p.flags else ""
  }

  /** A numeric refinement without its number holds of nothing; building a validator for it throws. */
  predicate Holds(fm: Formats, r: Refinement, v: Value) {
    match r.name
    case MinLength => v.Str? ==> r.params.Bound? && CodeUnits(v.text) as real >= r.params.value
    case MaxLength => v.Str? ==> r.params.Bound? && CodeUnits(v.text) as real <= r.params.value
    case Length => v.Str? ==> r.params.Bound? && CodeUnits(v.text) as real == r.params.value
    case Regex => v.Str? ==> fm.pattern(Source(r.params), Flags(r.params), v.text)
    case Email => v.Str? ==> fm.format(EmailFormat, v.text)
    case Uuid => v.Str? ==> fm.format(UuidFormat, v.text)
    case Url => v.Str? ==> fm.format(UriFormat, v.text)
    case Int => v.Num? ==> IsInteger(v.number)
    case Min => v.Num? ==> r.params.Bound? && v.number >= r.params.value
    case Max => v.Num? ==> r.params.Bound? && v.number <= r.params.value
    case Gt => v.Num? ==> r.params.Bound? && v.number > r.params.value
    case Lt => v.Num? ==> r.params.Bound? && v.number < r.params.value
    case MultipleOf => v.Num? ==> r.params.Bound? && IsMultipleOf(v.number, r.params.value)
    case MinItems => v.Arr? ==> r.params.Bound? && |v.items| as real >= r.params.value
    case MaxItems => v.Arr? ==> r.params.Bound? && |v.items| as real <= r.params.value
  }

  predicate AllHold(fm: Formats, refs: seq<Refinement>, v: Value) {
    forall r | r in refs :: Holds(fm, r, v)
  }

  // ---- Acceptance: base, refinements, absence modifiers, then default ----

  function Filled(m: Modifiers, v: Value): Value {
    if v.Undefined? && m.default.Some? then m.default.value else v
  }

  predicate Accepts(fm: Formats, n: Node, v: Value)
    decreases n, 1
  {
    AcceptsFilled(fm, n, Filled(n.mods, v))
  }

  predicate AcceptsFilled(fm: Formats, n: Node, v: Value)
    decreases n, 0
  {
    || (v.Undefined? && n.mods.optional)
    || (v.Null? && n.mods.nullable)
    || (AcceptsBase(fm, n.kind, v) && AllHold(fm, n.refs, v))
  }

  predicate AcceptsBase(fm: Formats, kind: Kind, v: Value)
    decreases kind
  {
    match kind
    case StringKind => v.Str?
    case NumberKind => v.Num?
    case BooleanKind => v.Bool?
    case Literal(x) => IsPrimitive(v) && v == x
    case Enum(values) => IsPrimitive(v) && v in values
    case ArrayOf(e) => v.Arr? && forall x | x in v.items :: Accepts(fm, e, x)
    case ObjectOf(fields, _, unknownKeys) =>
      && v.Obj?
      && (forall k | k in fields :: Accepts(fm, fields[k], Lookup(v.props, k)))
      && (unknownKeys.Strict? ==> forall k | k in v.props :: k in fields)
  }

  // ---- Parsing: the same walk, returning the output ----

  function Parse(fm: Formats, n: Node, v: Value): Option<Value>
    decreases n, 1
  {
    ParseFilled(fm, n, Filled(n.mods, v))
  }

  function ParseFilled(fm: Formats, n: Node, v: Value): Option<Value>
    decreases n, 0
  {
    if v.Undefined? && n.mods.optional then Some(v)
    else if v.Null? && n.mods.nullable then Some(v)
    else if AllHold(fm, n.refs, v) then ParseBase(fm, n.kind, v)
    else None
  }

  function ParseBase(fm: Formats, kind: Kind, v: Value): Option<Value>
    decreases kind, 1
  {
    match kind
    case ArrayOf(e) =>
      if v.Arr? && forall x | x in v.items :: Parse(fm, e, x).Some? then
        Some(Arr(seq(|v.items|, i requires 0 <= i < |v.items| => Parse(fm, e, v.items[i]).value)))
      else None
    case ObjectOf(fields, _, unknownKeys) =>
      if v.Obj?
        && (forall k | k in fields :: Parse(fm, fields[k], Lookup(v.props, k)).Some?)
        && (unknownKeys.Strict? ==> forall k | k in v.props :: k in fields)
      then Some(Obj(ObjectOutput(fm, kind, v.props)))
      else None
    case _ => if AcceptsBase(fm, kind, v) then Some(v) else None
  }

  /** A declared key is written when it was present or parsed to a value; an undeclared one
      survives `passthrough` unless it holds `Undefined`. */
  function ObjectOutput(fm: Formats, kind: Kind, props: map<string, Value>): map<string, Value>
    requires kind.ObjectOf?
    requires forall k | k in kind.fields :: Parse(fm, kind.fields[k], Lookup(props, k)).Some?
    decreases kind, 0
  {
    var known := map k | k in kind.fields
                   && (k in props || Parse(fm, kind.fields[k], Lookup(props, k)).value != Undefined)
                   :: Parse(fm, kind.fields[k], Lookup(props, k)).value;
    var extra := map k | k in props && k !in kind.fields && kind.unknownKeys.Passthrough? && props[k] != Undefined
                   :: props[k];
    known + extra
  }

  /** Parsing succeeds on exactly the accepted values. */
  lemma {:induction false} ParseSucceedsIffAccepted(fm: Formats, n: Node, v: Value)
    ensures Parse(fm, n, v).Some? <==> Accepts(fm, n, v)
    decreases n, 1
  {
    ParseBaseSucceedsIffAccepted(fm, n.kind, Filled(n.mods, v));
  }

  lemma {:induction false} ParseBaseSucceedsIffAccepted(fm: Formats, kind: Kind, v: Value)
    ensures ParseBase(fm, kind, v).Some? <==> AcceptsBase(fm, kind, v)
    decreases kind
  {
    match kind {
      case ArrayOf(e) =>
        if v.Arr? {
          forall x | x in v.items ensures Parse(fm, e, x).Some? <==> Accepts(fm, e, x) {
            ParseSucceedsIffAccepted(fm, e, x);
          }
        }
      case ObjectOf(fields, _, _) =>
        if v.Obj? {
          forall k | k in fields
            ensures Parse(fm, fields[k], Lookup(v.props, k)).Some? <==> Accepts(fm, fields[k], Lookup(v.props, k))
          {
            ParseSucceedsIffAccepted(fm, fields[k], Lookup(v.props, k));
          }
        }
      case _ =>
    }
  }

  /** An output is a fixed point of the parser, so reparsing it changes nothing. */
  lemma {:induction false} ParseIdempotent(fm: Formats, n: Node, v: Value)
    requires Parse(fm, n, v).Some?
    ensures Parse(fm, n, Parse(fm, n, v).value) == Parse(fm, n, v)
    decreases n, 1
  {
    var w := Filled(n.mods, v);
    var out := Parse(fm, n, v).value;
    if (w.Undefined? && n.mods.optional) || (w.Null? && n.mods.nullable) {
      assert out == w;
    } else {
      ParseBaseIdempotent(fm, n.kind, w);
      ParseBaseKeepsRefinements(fm, n.kind, w, n.refs);
    }
  }

  /** A base output keeps what refinements look at: the kind, the text, the number, the item count. */
  lemma ParseBaseKeepsRefinements(fm: Formats, kind: Kind, v: Value, refs: seq<Refinement>)
    requires ParseBase(fm, kind, v).Some? && AllHold(fm, refs, v)
    ensures AllHold(fm, refs, ParseBase(fm, kind, v).value)
  {
    var out := ParseBase(fm, kind, v).value;
    assert if v.Arr? && kind.ArrayOf? then out.Arr? && |out.items| == |v.items| else out == v || (out.Obj? && v.Obj?);
  }

  lemma {:induction false} ParseBaseIdempotent(fm: Formats, kind: Kind, v: Value)
    requires ParseBase(fm, kind, v).Some?
    ensures ParseBase(fm, kind, ParseBase(fm, kind, v).value) == ParseBase(fm, kind, v)
    ensures !ParseBase(fm, kind, v).value.Undefined?
    decreases kind, 1
  {
    match kind {
      case ArrayOf(e) =>
        var out := ParseBase(fm, kind, v).value;
        forall i | 0 <= i < |out.items| ensures Parse(fm, e, out.items[i]) == Some(out.items[i]) {
          ParseIdempotent(fm, e, v.items[i]);
        }
        assert ParseBase(fm, kind, out).value.items == out.items;
      case ObjectOf(_, _, _) =>
        ParseObjectIdempotent(fm, kind, v);
      case _ =>
    }
  }

  lemma {:induction false} ParseObjectIdempotent(fm: Formats, kind: Kind, v: Value)
    requires kind.ObjectOf? && ParseBase(fm, kind, v).Some?
    ensures ParseBase(fm, kind, ParseBase(fm, kind, v).value) == ParseBase(fm, kind, v)
    decreases kind, 0
  {
    var out := ObjectOutput(fm, kind, v.props);
    forall k | k in kind.fields
      ensures Parse(fm, kind.fields[k], Lookup(out, k)) == Some(Lookup(out, k))
    {
      ParseIdempotent(fm, kind.fields[k], Lookup(v.props, k));
    }
    ObjectOutputFixed(fm, kind, v.props);
  }

  lemma ObjectOutputFixed(fm: Formats, kind: Kind, props: map<string, Value>)
    requires kind.ObjectOf?
    requires forall k | k in kind.fields :: Parse(fm, kind.fields[k], Lookup(props, k)).Some?
    requires var out := ObjectOutput(fm, kind, props);
             forall k | k in kind.fields :: Parse(fm, kind.fields[k], Lookup(out, k)) == Some(Lookup(out, k))
    ensures var out := ObjectOutput(fm, kind, props); ObjectOutput(fm, kind, out) == out
  {
    var out := ObjectOutput(fm, kind, props);
    var again := ObjectOutput(fm, kind, out);
    assert forall k :: k in again <==> k in out;
    assert forall k | k in out :: again[k] == out[k];
  }

  /** What the parser returns, the schema accepts. */
  lemma OutputIsAccepted(fm: Formats, n: Node, v: Value)
    requires Parse(fm, n, v).Some?
    ensures Accepts(fm, n, Parse(fm, n, v).value)
  {
    ParseIdempotent(fm, n, v);
    ParseSucceedsIffAccepted(fm, n, Parse(fm, n, v).value);
  }
}
