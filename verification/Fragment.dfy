/** JSON Schema fragments: what the emitter builds for a node, and what the keywords assert. */
module Fragment {
  import opened Values
  import opened Schema

  datatype Keyword =
    | TypeKey | ConstKey | EnumKey | AnyOfKey
    | MinLengthKey | MaxLengthKey | PatternKey | FormatKey
    | MinimumKey | MaximumKey | ExclusiveMinimumKey | ExclusiveMaximumKey | MultipleOfKey
    | MinItemsKey | MaxItemsKey | ItemsKey
    | PropertiesKey | RequiredKey | AdditionalPropertiesKey | StripKey
    | DescriptionKey | DeprecatedKey | DefaultKey | DefaultAppliedByKey

  datatype TypeName = StringType | NumberType | IntegerType | BooleanType | ArrayType | ObjectType | NullType

  datatype Setting =
    | OneType(t: TypeName)
    | TypeList(ts: seq<TypeName>)
    | Exactly(value: Json)
    | Choices(values: seq<Json>)
    | Alternatives(branches: seq<Fragment>)
    | Amount(amount: real)
    | Text(text: string)
    | Format(format: FormatName)
    | Items(element: Fragment)
    | Properties(fields: map<string, Fragment>)
    | Names(names: seq<string>)
    | Flag(flag: bool)

  type Keys = map<Keyword, Setting>

  /** A JSON object of keywords. */
  datatype Fragment = Fragment(keys: Keys)

  datatype EmitError = EmptyEnum | RegexFlags | NotNumeric

  // ---- Emission ----

  function RefinementError(r: Refinement): Option<EmitError> {
    match r.name
    case Regex => if Flags(r.params) != "" then Some(RegexFlags) else None
    case Email => None
    case Uuid => None
    case Url => None
    case Int => None
    case _ => if r.params.Bound? then None else Some(NotNumeric)
  }

  /** The keywords one refinement writes. */
  function Settings(r: Refinement): Keys
    requires RefinementError(r).None?
  {
    match r.name
    case MinLength => map[MinLengthKey := Amount(r.params.value)]
    case MaxLength => map[MaxLengthKey := Amount(r.params.value)]
    case Length => map[MinLengthKey := Amount(r.params.value), MaxLengthKey := Amount(r.params.value)]
    case Regex => map[PatternKey := Text(Source(r.params))]
    case Email => map[FormatKey := Format(EmailFormat)]
    case Uuid => map[FormatKey := Format(UuidFormat)]
    case Url => map[FormatKey := Format(UriFormat)]
    case Int => map[TypeKey := OneType(IntegerType)]
    case Min => map[MinimumKey := Amount(r.params.value)]
    case Max => map[MaximumKey := Amount(r.params.value)]
    case Gt => map[ExclusiveMinimumKey := Amount(r.params.value)]
    case Lt => map[ExclusiveMaximumKey := Amount(r.params.value)]
    case MultipleOf => map[MultipleOfKey := Amount(r.params.value)]
    case MinItems => map[MinItemsKey := Amount(r.params.value)]
    case MaxItems => map[MaxItemsKey := Amount(r.params.value)]
  }

  /** Refinements write in order, each over what stands. */
  function Refined(keys: Keys, refs: seq<Refinement>): Result<Keys, EmitError> {
    if refs == [] then Ok(keys)
    else
      match Refined(keys, Front(refs))
      case Err(e) => Err(e)
      case Ok(before) =>
        match RefinementError(LastOf(refs))
        case Some(e) => Err(e)
        case None => Ok(before + Settings(LastOf(refs)))
  }

  /** A description or a deprecation is written when it is truthy. */
  function Described(keys: Keys, meta: Metadata): Keys {
    var described := if meta.description.Some? && meta.description.value != ""
                     then keys[DescriptionKey := Text(meta.description.value)] else keys;
    if meta.deprecated == Some(true) then described[DeprecatedKey := Flag(true)] else described
  }

  const NULL_FRAGMENT := Fragment(map[TypeKey := OneType(NullType)])

  /** `null` joins a type, failing that an enum, failing that a constant. */
  function Nulled(keys: Keys): Keys {
    if TypeKey in keys then
      match keys[TypeKey]
      case TypeList(ts) => if NullType in ts then keys else keys[TypeKey := TypeList(ts + [NullType])]
      case OneType(t) => keys[TypeKey := TypeList([t, NullType])]
      case _ => keys
    else if EnumKey in keys && keys[EnumKey].Choices? then
      var values := keys[EnumKey].values;
      if Null in values then keys else keys[EnumKey := Choices(values + [Null])]
    else if ConstKey in keys then
      (keys - {ConstKey})[AnyOfKey := Alternatives([Fragment(map[ConstKey := keys[ConstKey]]), NULL_FRAGMENT])]
    else keys
  }

  function Defaulted(keys: Keys, m: Modifiers): Keys {
    if m.default.None? then keys
    else keys[DefaultKey := Exactly(m.default.value)][DefaultAppliedByKey := Text("runtime")]
  }

  /** The steps after the refinements. */
  function Finished(keys: Keys, n: Node): Keys {
    var described := Described(keys, n.meta);
    Defaulted(if n.mods.nullable then Nulled(described) else described, n.mods)
  }

  /** A field must be present when it is neither optional nor defaulted. */
  predicate IsObjectRequired(n: Node) {
    !n.mods.optional && n.mods.default.None?
  }

  function RequiredKeys(fields: map<string, Node>, order: seq<string>): seq<string>
    requires forall k | k in order :: k in fields
  {
    if order == [] then []
    else RequiredKeys(fields, Front(order)) + if IsObjectRequired(fields[LastOf(order)]) then [LastOf(order)] else []
  }

  function UnknownKeysSettings(u: UnknownKeys): Keys {
    match u
    case Strict => map[AdditionalPropertiesKey := Flag(false)]
    case Passthrough => map[AdditionalPropertiesKey := Flag(true)]
    case StripUnknown => map[AdditionalPropertiesKey := Flag(true), StripKey := Flag(true)]
  }

  function ObjectKeys(kind: Kind, fields: map<string, Fragment>): Keys
    requires kind.ObjectOf? && forall k | k in kind.order :: k in kind.fields
  {
    var required := RequiredKeys(kind.fields, kind.order);
    var keys: Keys := map[TypeKey := OneType(ObjectType), PropertiesKey := Properties(fields)];
    (if required == [] then keys else keys[RequiredKey := Names(required)]) + UnknownKeysSettings(kind.unknownKeys)
  }

  /** The fragment of a node, or the first error met: children first, then the node's own refinements. */
  function Emitted(n: Node): Result<Fragment, EmitError>
    requires WellKeyed(n)
    decreases n
  {
    match EmittedBase(n.kind)
    case Err(e) => Err(e)
    case Ok(base) =>
      match Refined(base, n.refs)
      case Err(e) => Err(e)
      case Ok(keys) => Ok(Fragment(Finished(keys, n)))
  }

  predicate WellKeyedKind(kind: Kind) {
    match kind
    case ArrayOf(e) => WellKeyed(e)
    case ObjectOf(fields, order, _) =>
      (forall k | k in order :: k in fields) && forall k | k in fields :: WellKeyed(fields[k])
    case _ => true
  }

  function EmittedBase(kind: Kind): Result<Keys, EmitError>
    requires WellKeyedKind(kind)
    decreases kind, 1
  {
    match kind
    case StringKind => Ok(map[TypeKey := OneType(StringType)])
    case NumberKind => Ok(map[TypeKey := OneType(NumberType)])
    case BooleanKind => Ok(map[TypeKey := OneType(BooleanType)])
    case Literal(x) => Ok(map[ConstKey := Exactly(x)])
    case Enum(values) => if values == [] then Err(EmptyEnum) else Ok(map[EnumKey := Choices(values)])
    case ArrayOf(e) =>
      (match Emitted(e)
       case Err(e) => Err(e)
       case Ok(f) => Ok(map[TypeKey := OneType(ArrayType), ItemsKey := Items(f)]))
    case ObjectOf(_, order, _) =>
      match EmittedFields(kind, order)
      case Err(e) => Err(e)
      case Ok(fields) => Ok(ObjectKeys(kind, fields))
  }

  function EmittedFields(kind: Kind, order: seq<string>): Result<map<string, Fragment>, EmitError>
    requires kind.ObjectOf? && WellKeyedKind(kind) && forall k | k in order :: k in kind.fields
    decreases kind, 0, |order|
  {
    if order == [] then Ok(map[])
    else
      match EmittedFields(kind, Front(order))
      case Err(e) => Err(e)
      case Ok(fields) =>
        match Emitted(kind.fields[LastOf(order)])
        case Err(e) => Err(e)
        case Ok(f) => Ok(fields[LastOf(order) := f])
  }

  // ---- Which nodes have a fragment ----

  predicate IsEmittable(n: Node) {
    && (forall r | r in n.refs :: RefinementError(r).None?)
    && match n.kind
       case Enum(values) => values != []
       case ArrayOf(e) => IsEmittable(e)
       case ObjectOf(fields, _, _) => forall k | k in fields :: IsEmittable(fields[k])
       case _ => true
  }

  lemma {:induction false} RefinedIffErrorFree(keys: Keys, refs: seq<Refinement>)
    ensures Refined(keys, refs).Ok? <==> forall r | r in refs :: RefinementError(r).None?
  {
    if refs != [] {
      RefinedIffErrorFree(keys, Front(refs));
      assert refs == Front(refs) + [LastOf(refs)];
    }
  }

  /** Emission succeeds exactly without an empty enum, a flagged pattern or a missing number, at any depth. */
  lemma {:induction false} EmitsIffEmittable(n: Node)
    requires WellKeyed(n)
    ensures Emitted(n).Ok? <==> IsEmittable(n)
    decreases n
  {
    if EmittedBase(n.kind).Ok? {
      RefinedIffErrorFree(EmittedBase(n.kind).value, n.refs);
    }
    match n.kind {
      case ArrayOf(e) => EmitsIffEmittable(e);
      case ObjectOf(fields, order, _) =>
        forall k | k in fields ensures Emitted(fields[k]).Ok? <==> IsEmittable(fields[k]) {
          EmitsIffEmittable(fields[k]);
        }
        FieldsEmit(n.kind, order);
      case _ =>
    }
  }

  /** The emitted properties are the declared fields, each with its own fragment. */
  lemma {:induction false} FieldsEmit(kind: Kind, order: seq<string>)
    requires kind.ObjectOf? && WellKeyedKind(kind) && forall k | k in order :: k in kind.fields
    ensures EmittedFields(kind, order).Ok? <==> forall k | k in order :: Emitted(kind.fields[k]).Ok?
    ensures EmittedFields(kind, order).Ok? ==>
              && (forall k :: k in EmittedFields(kind, order).value <==> k in order)
              && forall k | k in order :: EmittedFields(kind, order).value[k] == Emitted(kind.fields[k]).value
  {
    if order != [] {
      FieldsEmit(kind, Front(order));
      assert order == Front(order) + [LastOf(order)];
    }
  }

  // ---- What a fragment asserts of a JSON value ----

  predicate HasType(t: TypeName, v: Value) {
    match t
    case StringType => v.Str?
    case NumberType => v.Num?
    case IntegerType => v.Num? && IsInteger(v.number)
    case BooleanType => v.Bool?
    case ArrayType => v.Arr?
    case ObjectType => v.Obj?
    case NullType => v.Null?
  }

  /** A keyword that looks at the value alone; a keyword of another type asserts nothing. */
  predicate Asserts(fm: Formats, kw: Keyword, s: Setting, v: Value) {
    match kw
    case TypeKey =>
      (s.OneType? ==> HasType(s.t, v)) && (s.TypeList? ==> exists t | t in s.ts :: HasType(t, v))
    case ConstKey => s.Exactly? ==> v == s.value
    case EnumKey => s.Choices? ==> v in s.values
    case MinLengthKey => s.Amount? && v.Str? ==> |v.text| as real >= s.amount
    case MaxLengthKey => s.Amount? && v.Str? ==> |v.text| as real <= s.amount
    case PatternKey => s.Text? && v.Str? ==> fm.pattern(s.text, "", v.text)
    case FormatKey => s.Format? && v.Str? ==> fm.format(s.format, v.text)
    case MinimumKey => s.Amount? && v.Num? ==> v.number >= s.amount
    case MaximumKey => s.Amount? && v.Num? ==> v.number <= s.amount
    case ExclusiveMinimumKey => s.Amount? && v.Num? ==> v.number > s.amount
    case ExclusiveMaximumKey => s.Amount? && v.Num? ==> v.number < s.amount
    case MultipleOfKey => s.Amount? && v.Num? ==> IsMultipleOf(v.number, s.amount)
    case MinItemsKey => s.Amount? && v.Arr? ==> |v.items| as real >= s.amount
    case MaxItemsKey => s.Amount? && v.Arr? ==> |v.items| as real <= s.amount
    case RequiredKey => s.Names? && v.Obj? ==> forall k | k in s.names :: k in v.props
    case _ => true
  }

  /** `properties`, as its sibling `additionalProperties` sees it. */
  function Declared(f: Fragment): map<string, Fragment> {
    if PropertiesKey in f.keys && f.keys[PropertiesKey].Properties? then f.keys[PropertiesKey].fields else map[]
  }

  /** Every keyword holds (JSON Schema draft 2020-12: Validation sections 6.1 to 6.5 and 7.2.2,
      Core sections 10.2.1.2, 10.3.1.2, 10.3.2.1 and 10.3.2.3). */
  predicate IsValid(fm: Formats, f: Fragment, v: Value)
    decreases f, 1
  {
    forall kw | kw in f.keys :: Keeps(fm, f, kw, v)
  }

  predicate Keeps(fm: Formats, f: Fragment, kw: Keyword, v: Value)
    requires kw in f.keys
    decreases f, 0
  {
    var s := f.keys[kw];
    match kw
    case AnyOfKey => s.Alternatives? ==> exists b | b in s.branches :: IsValid(fm, b, v)
    case ItemsKey => s.Items? && v.Arr? ==> forall x | x in v.items :: IsValid(fm, s.element, x)
    case PropertiesKey =>
      s.Properties? && v.Obj? ==> forall k | k in s.fields && k in v.props :: IsValid(fm, s.fields[k], v.props[k])
    case AdditionalPropertiesKey =>
      s.Flag? && !s.flag && v.Obj? ==> forall k | k in v.props :: k in Declared(f)
    case _ => Asserts(fm, kw, s, v)
  }
}
