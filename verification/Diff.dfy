/** The schema diff classifier: one change per axis that moved, each with a severity. */
module Diff {
  import opened Values
  import opened Schema

  datatype Severity = Cosmetic | Additive | Breaking

  datatype ChangeKind =
    | TypeChanged | SchemaVersionChanged | MetadataChanged
    | DefaultAdded | DefaultRemoved | DefaultValueChanged
    | AbsenceModifierChanged | RefinementChanged | RefinementsReordered
    | UnknownKeysChanged | FieldAdded | FieldRemoved
    | EnumValueAdded | EnumValueRemoved | LiteralChanged

  datatype Change = Change(severity: Severity, path: seq<string>, kind: ChangeKind)

  // ---- The walk ----

  predicate SameKind(b: Kind, a: Kind) {
    match b
    case StringKind => a.StringKind?
    case NumberKind => a.NumberKind?
    case BooleanKind => a.BooleanKind?
    case Literal(_) => a.Literal?
    case Enum(_) => a.Enum?
    case ArrayOf(_) => a.ArrayOf?
    case ObjectOf(_, _, _) => a.ObjectOf?
  }

  function Walk(b: Node, a: Node, path: seq<string>): seq<Change>
    requires WellKeyed(b) && WellKeyed(a)
    decreases b
  {
    if !SameKind(b.kind, a.kind) then [Change(Breaking, path, TypeChanged)]
    else
      DiffMetadata(b.meta, a.meta, path)
      + DiffDefault(b.mods, a.mods, path)
      + DiffAbsence(b.mods, a.mods, path)
      + DiffRefinements(b.refs, a.refs, path)
      + match b.kind
        case ArrayOf(e) => Walk(e, a.kind.element, path + ["[]"])
        case ObjectOf(_, order, _) =>
          DiffUnknownKeys(b.kind.unknownKeys, a.kind.unknownKeys, path)
          + DiffKeys(b.kind, a.kind, AllKeys(order, a.kind.order), path)
        case Enum(values) =>
          EnumAdded(values, a.kind.values, path) + EnumRemoved(values, a.kind.values, path)
        case Literal(x) => if x == a.kind.value then [] else [Change(Breaking, path, LiteralChanged)]
        case _ => []
  }

  // ---- Metadata, default, absence ----

  function DiffMetadata(b: Metadata, a: Metadata, path: seq<string>): seq<Change> {
    (if b.version != a.version then [Change(Cosmetic, path, SchemaVersionChanged)] else [])
    + (if b.description != a.description then [Change(Cosmetic, path, MetadataChanged)] else [])
    + (if IsDeprecated(b) != IsDeprecated(a) then [Change(Cosmetic, path, MetadataChanged)] else [])
    + (if b.id != a.id then [Change(Cosmetic, path, MetadataChanged)] else [])
  }

  predicate IsDeprecated(m: Metadata) {
    m.deprecated == Some(true)
  }

  function DiffDefault(b: Modifiers, a: Modifiers, path: seq<string>): seq<Change> {
    match (b.default, a.default)
    case (None, None) => []
    case (None, Some(_)) => [Change(Additive, path, DefaultAdded)]
    case (Some(_), None) => [Change(Breaking, path, DefaultRemoved)]
    case (Some(x), Some(y)) => if x == y then [] else [Change(Breaking, path, DefaultValueChanged)]
  }

  datatype Absence = RequiredState | OptionalState | NullableState | NullishState

  /** A default masks the optional flag it implies. */
  function AbsenceOf(m: Modifiers): Absence {
    var opt := m.optional && m.default.None?;
    if opt && m.nullable then NullishState
    else if opt then OptionalState
    else if m.nullable then NullableState
    else RequiredState
  }

  function AbsenceSeverity(from: Absence, to: Absence): Severity {
    var wider := match to
      case RequiredState => from.RequiredState?
      case OptionalState => from.RequiredState? || from.OptionalState?
      case NullableState => from.RequiredState? || from.NullableState?
      case NullishState => true;
    if wider then Additive else Breaking
  }

  function DiffAbsence(b: Modifiers, a: Modifiers, path: seq<string>): seq<Change> {
    if AbsenceOf(b) == AbsenceOf(a) then []
    else [Change(AbsenceSeverity(AbsenceOf(b), AbsenceOf(a)), path, AbsenceModifierChanged)]
  }

  // ---- Refinements, keyed by name: the last duplicate wins ----

  /** The names in the order a `Map` first meets them. */
  function Names(refs: seq<Refinement>): seq<RefinementName> {
    if refs == [] then []
    else
      var names := Names(Front(refs));
      if LastOf(refs).name in names then names else names + [LastOf(refs).name]
  }

  function LastNamed(refs: seq<Refinement>, name: RefinementName): Option<Refinement> {
    if refs == [] then None
    else if LastOf(refs).name == name then Some(LastOf(refs))
    else LastNamed(Front(refs), name)
  }

  function Loosened(names: seq<RefinementName>, after: seq<Refinement>, path: seq<string>): seq<Change> {
    if names == [] then []
    else
      Loosened(Front(names), after, path)
      + (if LastNamed(after, LastOf(names)).None? then [Change(Additive, path, RefinementChanged)] else [])
  }

  function Tightened(names: seq<RefinementName>, before: seq<Refinement>, path: seq<string>): seq<Change> {
    if names == [] then []
    else
      Tightened(Front(names), before, path)
      + (if LastNamed(before, LastOf(names)).None? then [Change(Breaking, path, RefinementChanged)] else [])
  }

  function Reparametrised(names: seq<RefinementName>, before: seq<Refinement>, after: seq<Refinement>,
                          path: seq<string>): seq<Change> {
    if names == [] then []
    else
      Reparametrised(Front(names), before, after, path)
      + ParamChange(LastNamed(before, LastOf(names)), LastNamed(after, LastOf(names)), path)
  }

  function ParamChange(b: Option<Refinement>, a: Option<Refinement>, path: seq<string>): seq<Change> {
    if b.Some? && a.Some? && b.value.params != a.value.params
    then [Change(ParamSeverity(b.value, a.value), path, RefinementChanged)]
    else []
  }

  function ParamSeverity(b: Refinement, a: Refinement): Severity {
    if !b.params.Bound? || !a.params.Bound? then Breaking
    else match b.name
      case MinLength | Min | MinItems | Gt => if a.params.value > b.params.value then Breaking else Additive
      case MaxLength | Max | MaxItems | Lt => if a.params.value < b.params.value then Breaking else Additive
      case _ => Breaking
  }

  function NameList(refs: seq<Refinement>): seq<RefinementName> {
    seq(|refs|, i requires 0 <= i < |refs| => refs[i].name)
  }

  function DiffRefinements(b: seq<Refinement>, a: seq<Refinement>, path: seq<string>): seq<Change> {
    var out := Loosened(Names(b), a, path) + Tightened(Names(a), b, path) + Reparametrised(Names(b), b, a, path);
    if out == [] && NameList(b) != NameList(a) && multiset(NameList(b)) == multiset(NameList(a))
    then [Change(Cosmetic, path, RefinementsReordered)]
    else out
  }

  // ---- Objects ----

  function DiffUnknownKeys(b: UnknownKeys, a: UnknownKeys, path: seq<string>): seq<Change> {
    if b == a then []
    else
      var severity := if b.Strict? then Additive else if a.Strict? then Breaking else Cosmetic;
      [Change(severity, path, UnknownKeysChanged)]
  }

  /** The keys of two records in the order a `Set` first meets them. */
  function AllKeys(bs: seq<string>, cs: seq<string>): seq<string> {
    if cs == [] then bs
    else
      var keys := AllKeys(bs, Front(cs));
      if LastOf(cs) in keys then keys else keys + [LastOf(cs)]
  }

  predicate WellKeyedFields(kind: Kind) {
    kind.ObjectOf? && forall k | k in kind.fields :: WellKeyed(kind.fields[k])
  }

  function DiffKeys(b: Kind, a: Kind, keys: seq<string>, path: seq<string>): seq<Change>
    requires WellKeyedFields(b) && WellKeyedFields(a)
    decreases b, |keys|
  {
    if keys == [] then []
    else DiffKeys(b, a, Front(keys), path) + DiffKey(b, a, LastOf(keys), path)
  }

  function DiffKey(b: Kind, a: Kind, key: string, path: seq<string>): seq<Change>
    requires WellKeyedFields(b) && WellKeyedFields(a)
    decreases b, 0
  {
    var child := path + [key];
    if key !in b.fields && key in a.fields then
      [Change(NewFieldSeverity(a.fields[key].mods), child, FieldAdded)]
    else if key in b.fields && key !in a.fields then
      [Change(Breaking, child, FieldRemoved)]
    else if key in b.fields && key in a.fields then
      Walk(b.fields[key], a.fields[key], child)
    else []
  }

  function NewFieldSeverity(m: Modifiers): Severity {
    if m.default.Some? || m.optional then Additive else Breaking
  }

  // ---- Enums ----

  function EnumAdded(b: seq<Json>, a: seq<Json>, path: seq<string>): seq<Change> {
    if a == [] then []
    else
      EnumAdded(b, Front(a), path)
      + (if LastOf(a) in b then [] else [Change(Additive, path, EnumValueAdded)])
  }

  function EnumRemoved(b: seq<Json>, a: seq<Json>, path: seq<string>): seq<Change> {
    if b == [] then []
    else
      EnumRemoved(Front(b), a, path)
      + (if LastOf(b) in a then [] else [Change(Breaking, path, EnumValueRemoved)])
  }

  // ---- Aggregation ----

  function Rank(s: Severity): nat {
    match s
    case Cosmetic => 0
    case Additive => 1
    case Breaking => 2
  }

  /** No change is worse than `bound`. */
  predicate Within(changes: seq<Change>, bound: Severity) {
    forall c | c in changes :: Rank(c.severity) <= Rank(bound)
  }

  /** The severity the planner dispatches on, by its meaning. */
  ghost predicate IsWorst(changes: seq<Change>, worst: Option<Severity>) {
    match worst
    case None => changes == []
    case Some(s) => Within(changes, s) && exists c | c in changes :: c.severity == s
  }

  lemma WorstIsUnique(changes: seq<Change>, x: Option<Severity>, y: Option<Severity>)
    requires IsWorst(changes, x) && IsWorst(changes, y)
    ensures x == y
  {
    if x.Some? && y.Some? {
      var c :| c in changes && c.severity == x.value;
      var d :| d in changes && d.severity == y.value;
    }
  }
}
