/** The JSON Schema a node compiles to accepts what the node's validate variant accepts. */
module FragmentMeaning {
  import opened Values
  import opened Schema
  import opened DiffSoundness
  import opened StripDefaults
  import opened Fragment

  /** The keywords a refinement of this name writes. */
  function WrittenBy(name: RefinementName): set<Keyword> {
    match name
    case MinLength => {MinLengthKey}
    case MaxLength => {MaxLengthKey}
    case Length => {MinLengthKey, MaxLengthKey}
    case Regex => {PatternKey}
    case Email => {FormatKey}
    case Uuid => {FormatKey}
    case Url => {FormatKey}
    case Int => {TypeKey}
    case Min => {MinimumKey}
    case Max => {MaximumKey}
    case Gt => {ExclusiveMinimumKey}
    case Lt => {ExclusiveMaximumKey}
    case MultipleOf => {MultipleOfKey}
    case MinItems => {MinItemsKey}
    case MaxItems => {MaxItemsKey}
  }

  predicate IsLowerBound(kw: Keyword) {
    kw.MinLengthKey? || kw.MinItemsKey? || kw.MinimumKey? || kw.ExclusiveMinimumKey?
  }

  predicate IsUpperBound(kw: Keyword) {
    kw.MaxLengthKey? || kw.MaxItemsKey? || kw.MaximumKey? || kw.ExclusiveMaximumKey?
  }

  /** `t` may stand where `s` stood: the same setting, or a bound no looser. */
  predicate Tightens(kw: Keyword, s: Setting, t: Setting) {
    || s == t
    || (s.Amount? && t.Amount? && IsLowerBound(kw) && t.amount >= s.amount)
    || (s.Amount? && t.Amount? && IsUpperBound(kw) && t.amount <= s.amount)
  }

  /** What stands under a keyword in the end tightens what each refinement wrote there; what stood in between does not
      matter. */
  predicate AreUpheld(refs: seq<Refinement>) {
    forall r | r in refs && RefinementError(r).None? :: IsUpheldBy(r, Refined(map[], refs))
  }

  predicate IsUpheldBy(r: Refinement, end: Result<Keys, EmitError>)
    requires RefinementError(r).None?
  {
    end.Ok? ==> forall kw | kw in Settings(r) :: kw in end.value && Tightens(kw, Settings(r)[kw], end.value[kw])
  }

  /** `int` refines numbers only, and constants are compared by content: what the builders let through. */
  predicate IsBuildable(n: Node) {
    && ((exists r | r in n.refs :: r.name.Int?) ==> n.kind.NumberKind?)
    && match n.kind
       case Literal(x) => IsPrimitive(x)
       case Enum(values) => forall x | x in values :: IsPrimitive(x)
       case ArrayOf(e) => IsBuildable(e)
       case ObjectOf(fields, _, _) => forall k | k in fields :: IsBuildable(fields[k])
       case _ => true
  }

  /** Every refinement is upheld in the end, at any depth. */
  predicate NothingLoosened(n: Node) {
    && AreUpheld(n.refs)
    && match n.kind
       case ArrayOf(e) => NothingLoosened(e)
       case ObjectOf(fields, _, _) => forall k | k in fields :: NothingLoosened(fields[k])
       case _ => true
  }

  // ---- What the refinement loop leaves under a keyword ----

  lemma SettingsKeys(r: Refinement)
    requires RefinementError(r).None?
    ensures Settings(r).Keys == WrittenBy(r.name)
  {
  }

  /** What stands under a keyword was there before or was written by a refinement. */
  lemma {:induction false} RefinedFrom(keys: Keys, refs: seq<Refinement>, kw: Keyword)
    requires Refined(keys, refs).Ok? && kw in Refined(keys, refs).value
    ensures var s := Refined(keys, refs).value[kw];
            || (kw in keys && keys[kw] == s)
            || exists r | r in refs :: RefinementError(r).None? && kw in Settings(r) && Settings(r)[kw] == s
  {
    if refs != [] {
      var r := LastOf(refs);
      if kw !in Settings(r) {
        RefinedFrom(keys, Front(refs), kw);
      } else {
        assert r in refs;
      }
    }
  }

  lemma {:induction false} RefinedKept(keys: Keys, refs: seq<Refinement>, kw: Keyword)
    requires Refined(keys, refs).Ok? && forall r | r in refs :: kw !in WrittenBy(r.name)
    ensures var m := Refined(keys, refs).value;
            (kw in m <==> kw in keys) && (kw in keys ==> m[kw] == keys[kw])
  {
    if refs != [] {
      assert LastOf(refs) in refs && forall r | r in Front(refs) :: r in refs;
      SettingsKeys(LastOf(refs));
      RefinedKept(keys, Front(refs), kw);
    }
  }

  /** What the refinements leave under a keyword they write does not depend on what stood there before them. */
  lemma {:induction false} RefinedAlike(keys: Keys, refs: seq<Refinement>, kw: Keyword)
    requires Refined(keys, refs).Ok?
    ensures Refined(map[], refs).Ok?
    ensures kw in Refined(map[], refs).value ==>
              kw in Refined(keys, refs).value && Refined(keys, refs).value[kw] == Refined(map[], refs).value[kw]
  {
    if refs != [] {
      RefinedAlike(keys, Front(refs), kw);
    }
  }

  /** What stands under a keyword in the end tightens what each refinement wrote there, whatever stood there before. */
  lemma RefinedWritten(keys: Keys, refs: seq<Refinement>, i: nat, kw: Keyword)
    requires Refined(keys, refs).Ok? && AreUpheld(refs) && i < |refs|
    requires RefinementError(refs[i]).None? && kw in Settings(refs[i])
    ensures var m := Refined(keys, refs).value; kw in m && Tightens(kw, Settings(refs[i])[kw], m[kw])
  {
    RefinedAlike(keys, refs, kw);
    assert IsUpheldBy(refs[i], Refined(map[], refs));
  }

  lemma TightensImplies(fm: Formats, kw: Keyword, s: Setting, t: Setting, v: Value)
    requires Tightens(kw, s, t) && Asserts(fm, kw, t, v)
    ensures Asserts(fm, kw, s, v)
  {
  }

  ghost predicate AllAssert(fm: Formats, keys: Keys, v: Value) {
    forall kw | kw in keys :: Asserts(fm, kw, keys[kw], v)
  }

  lemma OneAsserts(fm: Formats, r: Refinement, kw: Keyword, s: Setting, v: Value)
    requires RefinementError(r).None? && Settings(r) == map[kw := s]
    ensures AllAssert(fm, Settings(r), v) <==> Asserts(fm, kw, s, v)
  {
    assert kw in Settings(r) && Settings(r)[kw] == s;
  }

  lemma LengthIsAsserted(fm: Formats, r: Refinement, v: Value)
    requires RefinementError(r).None? && IsBmpValue(v)
    requires r.name.MinLength? || r.name.MaxLength? || r.name.Length?
    ensures Holds(fm, r, v) <==> AllAssert(fm, Settings(r), v)
  {
    if v.Str? {
      CodeUnitsBounds(v.text);
    }
    var s := Amount(r.params.value);
    if r.name.Length? {
      assert MinLengthKey in Settings(r) && MaxLengthKey in Settings(r);
      assert Settings(r)[MinLengthKey] == s == Settings(r)[MaxLengthKey];
    } else {
      OneAsserts(fm, r, if r.name.MinLength? then MinLengthKey else MaxLengthKey, s, v);
    }
  }

  lemma TextIsAsserted(fm: Formats, r: Refinement, v: Value)
    requires RefinementError(r).None?
    requires r.name.Regex? || r.name.Email? || r.name.Uuid? || r.name.Url?
    ensures Holds(fm, r, v) <==> AllAssert(fm, Settings(r), v)
  {
    match r.name {
      case Regex => OneAsserts(fm, r, PatternKey, Text(Source(r.params)), v);
      case Email => OneAsserts(fm, r, FormatKey, Format(EmailFormat), v);
      case Uuid => OneAsserts(fm, r, FormatKey, Format(UuidFormat), v);
      case Url => OneAsserts(fm, r, FormatKey, Format(UriFormat), v);
    }
  }

  lemma NumberIsAsserted(fm: Formats, r: Refinement, v: Value)
    requires RefinementError(r).None? && (r.name.Int? ==> v.Num?)
    requires r.name.Int? || r.name.Min? || r.name.Max? || r.name.Gt? || r.name.Lt? || r.name.MultipleOf?
    ensures Holds(fm, r, v) <==> AllAssert(fm, Settings(r), v)
  {
    match r.name {
      case Int => OneAsserts(fm, r, TypeKey, OneType(IntegerType), v);
      case Min => OneAsserts(fm, r, MinimumKey, Amount(r.params.value), v);
      case Max => OneAsserts(fm, r, MaximumKey, Amount(r.params.value), v);
      case Gt => OneAsserts(fm, r, ExclusiveMinimumKey, Amount(r.params.value), v);
      case Lt => OneAsserts(fm, r, ExclusiveMaximumKey, Amount(r.params.value), v);
      case MultipleOf => OneAsserts(fm, r, MultipleOfKey, Amount(r.params.value), v);
    }
  }

  lemma ItemsIsAsserted(fm: Formats, r: Refinement, v: Value)
    requires RefinementError(r).None? && (r.name.MinItems? || r.name.MaxItems?)
    ensures Holds(fm, r, v) <==> AllAssert(fm, Settings(r), v)
  {
    OneAsserts(fm, r, if r.name.MinItems? then MinItemsKey else MaxItemsKey, Amount(r.params.value), v);
  }

  /** For text without astral characters, a refinement demands what its keywords assert. */
  lemma HoldsIsAsserted(fm: Formats, r: Refinement, v: Value)
    requires RefinementError(r).None? && IsBmpValue(v) && (r.name.Int? ==> v.Num?)
    ensures Holds(fm, r, v) <==> AllAssert(fm, Settings(r), v)
  {
    match r.name {
      case MinLength => LengthIsAsserted(fm, r, v);
      case MaxLength => LengthIsAsserted(fm, r, v);
      case Length => LengthIsAsserted(fm, r, v);
      case Regex => TextIsAsserted(fm, r, v);
      case Email => TextIsAsserted(fm, r, v);
      case Uuid => TextIsAsserted(fm, r, v);
      case Url => TextIsAsserted(fm, r, v);
      case MinItems => ItemsIsAsserted(fm, r, v);
      case MaxItems => ItemsIsAsserted(fm, r, v);
      case _ => NumberIsAsserted(fm, r, v);
    }
  }

  predicate IsStructural(kw: Keyword) {
    kw.AnyOfKey? || kw.ItemsKey? || kw.PropertiesKey? || kw.AdditionalPropertiesKey?
  }

  lemma KeepsIsAsserts(fm: Formats, f: Fragment, kw: Keyword, v: Value)
    requires kw in f.keys && !IsStructural(kw)
    ensures Keeps(fm, f, kw, v) <==> Asserts(fm, kw, f.keys[kw], v)
  {
  }

  const BASE_KEYS := {TypeKey, ConstKey, EnumKey, ItemsKey, PropertiesKey, RequiredKey, AdditionalPropertiesKey, StripKey}

  lemma WrittenOutsideBase(name: RefinementName)
    ensures WrittenBy(name) !! BASE_KEYS - {TypeKey}
    ensures TypeKey in WrittenBy(name) <==> name.Int?
    ensures forall kw | kw in WrittenBy(name) :: !IsStructural(kw)
  {
  }

  lemma BaseKeysAreBase(kind: Kind)
    requires WellKeyedKind(kind) && EmittedBase(kind).Ok?
    ensures EmittedBase(kind).value.Keys <= BASE_KEYS
    ensures HasOneHead(EmittedBase(kind).value)
  {
  }

  /** Two fragments that agree on a keyword, and on the declared properties, agree on what it asserts. */
  lemma SameKeyword(fm: Formats, f: Fragment, g: Fragment, kw: Keyword, v: Value)
    requires kw in f.keys && kw in g.keys && f.keys[kw] == g.keys[kw]
    requires kw == AdditionalPropertiesKey ==> Declared(f) == Declared(g)
    ensures Keeps(fm, f, kw, v) <==> Keeps(fm, g, kw, v)
  {
  }

  lemma WrittenKeeps(fm: Formats, r: Refinement, f: Fragment, kw: Keyword, v: Value)
    requires RefinementError(r).None? && IsBmpValue(v) && (r.name.Int? ==> v.Num?) && Holds(fm, r, v)
    requires kw in f.keys && kw in Settings(r) && Settings(r)[kw] == f.keys[kw]
    ensures Keeps(fm, f, kw, v)
  {
    HoldsIsAsserted(fm, r, v);
    SettingsKeys(r);
    WrittenOutsideBase(r.name);
    KeepsIsAsserts(fm, f, kw, v);
  }

  /** The base and the refinements demand no less than each written keyword asserts. */
  lemma KeywordAdmits(fm: Formats, n: Node, base: Keys, kw: Keyword, v: Value)
    requires WellKeyed(n) && EmittedBase(n.kind) == Ok(base) && Refined(base, n.refs).Ok?
    requires IsBuildable(n) && IsBmpValue(v)
    requires IsValid(fm, Fragment(base), v) && AllHold(fm, n.refs, v) && (n.kind.NumberKind? ==> v.Num?)
    requires kw in Refined(base, n.refs).value
    ensures Keeps(fm, Fragment(Refined(base, n.refs).value), kw, v)
  {
    var f := Fragment(Refined(base, n.refs).value);
    RefinedFrom(base, n.refs, kw);
    if kw in base && base[kw] == f.keys[kw] {
      PropertiesKept(base, n.refs);
      SameKeyword(fm, f, Fragment(base), kw, v);
    } else {
      var r :| r in n.refs && RefinementError(r).None? && kw in Settings(r) && Settings(r)[kw] == f.keys[kw];
      WrittenKeeps(fm, r, f, kw, v);
    }
  }

  lemma PropertiesKept(base: Keys, refs: seq<Refinement>)
    requires Refined(base, refs).Ok?
    ensures Declared(Fragment(Refined(base, refs).value)) == Declared(Fragment(base))
  {
    forall r | r in refs ensures PropertiesKey !in WrittenBy(r.name) {
      WrittenOutsideBase(r.name);
    }
    RefinedKept(base, refs, PropertiesKey);
  }

  lemma OneKeyword(fm: Formats, kw: Keyword, s: Setting, v: Value)
    requires !IsStructural(kw)
    ensures IsValid(fm, Fragment(map[kw := s]), v) <==> Asserts(fm, kw, s, v)
  {
    var f := Fragment(map[kw := s]);
    assert kw in f.keys && forall k | k in f.keys :: k == kw;
    KeepsIsAsserts(fm, f, kw, v);
  }

  lemma NumberBase(fm: Formats, v: Value)
    ensures IsValid(fm, Fragment(map[TypeKey := OneType(NumberType)]), v) <==> v.Num?
  {
    OneKeyword(fm, TypeKey, OneType(NumberType), v);
  }

  lemma BodyAdmits(fm: Formats, n: Node, base: Keys, v: Value)
    requires WellKeyed(n) && EmittedBase(n.kind) == Ok(base) && Refined(base, n.refs).Ok?
    requires IsBuildable(n) && IsBmpValue(v)
    requires IsValid(fm, Fragment(base), v) && AllHold(fm, n.refs, v)
    ensures IsValid(fm, Fragment(Refined(base, n.refs).value), v)
  {
    if n.kind.NumberKind? {
      NumberBase(fm, v);
    }
    forall kw | kw in Refined(base, n.refs).value ensures Keeps(fm, Fragment(Refined(base, n.refs).value), kw, v) {
      KeywordAdmits(fm, n, base, kw, v);
    }
  }

  /** Where refinements are upheld, the written keywords assert each of them. */
  lemma RefinementAsserted(fm: Formats, keys: Keys, refs: seq<Refinement>, i: nat, v: Value)
    requires Refined(keys, refs).Ok? && AreUpheld(refs) && i < |refs| && IsBmpValue(v)
    requires IsValid(fm, Fragment(Refined(keys, refs).value), v)
    ensures Holds(fm, refs[i], v)
    ensures refs[i].name.Int? ==> v.Num?
  {
    var f, r := Fragment(Refined(keys, refs).value), refs[i];
    RefinedIffErrorFree(keys, refs);
    SettingsKeys(r);
    WrittenOutsideBase(r.name);
    forall kw | kw in Settings(r) ensures Asserts(fm, kw, Settings(r)[kw], v) {
      RefinedWritten(keys, refs, i, kw);
      assert Keeps(fm, f, kw, v);
      KeepsIsAsserts(fm, f, kw, v);
      TightensImplies(fm, kw, Settings(r)[kw], f.keys[kw], v);
    }
    assert r.name.Int? ==> TypeKey in Settings(r);
    HoldsIsAsserted(fm, r, v);
  }

  /** ... and the base, whose `type: number` an `integer` implies. */
  lemma BaseAsserted(fm: Formats, n: Node, base: Keys, kw: Keyword, v: Value)
    requires WellKeyed(n) && EmittedBase(n.kind) == Ok(base) && Refined(base, n.refs).Ok?
    requires IsBuildable(n) && kw in base
    requires (exists r | r in n.refs :: r.name.Int?) ==> v.Num?
    requires IsValid(fm, Fragment(Refined(base, n.refs).value), v)
    ensures Keeps(fm, Fragment(base), kw, v)
  {
    if r :| r in n.refs && kw in WrittenBy(r.name) {
      WrittenBaseAsserted(fm, n.kind, base, r.name, kw, v);
    } else {
      UnwrittenKept(fm, base, n.refs, kw, v);
    }
  }

  /** The one keyword of a base that a refinement writes is the `type` of a number, by `int`. */
  lemma WrittenBaseAsserted(fm: Formats, kind: Kind, base: Keys, name: RefinementName, kw: Keyword, v: Value)
    requires WellKeyedKind(kind) && EmittedBase(kind) == Ok(base) && kw in base && kw in WrittenBy(name)
    requires name.Int? ==> kind.NumberKind? && v.Num?
    ensures Keeps(fm, Fragment(base), kw, v)
  {
    BaseKeysAreBase(kind);
    WrittenOutsideBase(name);
    NumberBase(fm, v);
  }

  /** A keyword no refinement writes asserts what it did. */
  lemma UnwrittenKept(fm: Formats, base: Keys, refs: seq<Refinement>, kw: Keyword, v: Value)
    requires Refined(base, refs).Ok? && kw in base && forall r | r in refs :: kw !in WrittenBy(r.name)
    requires IsValid(fm, Fragment(Refined(base, refs).value), v)
    ensures Keeps(fm, Fragment(base), kw, v)
  {
    var f := Fragment(Refined(base, refs).value);
    RefinedKept(base, refs, kw);
    PropertiesKept(base, refs);
    assert Keeps(fm, f, kw, v);
    SameKeyword(fm, f, Fragment(base), kw, v);
  }

  lemma BodyAdmitsOnly(fm: Formats, n: Node, base: Keys, v: Value)
    requires WellKeyed(n) && EmittedBase(n.kind) == Ok(base) && Refined(base, n.refs).Ok?
    requires IsBuildable(n) && IsBmpValue(v) && AreUpheld(n.refs)
    requires IsValid(fm, Fragment(Refined(base, n.refs).value), v)
    ensures IsValid(fm, Fragment(base), v) && AllHold(fm, n.refs, v)
  {
    forall i | 0 <= i < |n.refs| ensures Holds(fm, n.refs[i], v) && (n.refs[i].name.Int? ==> v.Num?) {
      RefinementAsserted(fm, base, n.refs, i, v);
    }
    forall kw | kw in base ensures Keeps(fm, Fragment(base), kw, v) {
      BaseAsserted(fm, n, base, kw, v);
    }
  }

  // ---- Annotations assert nothing, and `null` is let in ----

  predicate IsSilent(kw: Keyword) {
    kw.DescriptionKey? || kw.DeprecatedKey? || kw.DefaultKey? || kw.DefaultAppliedByKey?
  }

  lemma SilentKeyword(fm: Formats, keys: Keys, kw: Keyword, s: Setting, v: Value)
    requires IsSilent(kw)
    ensures IsValid(fm, Fragment(keys[kw := s]), v) <==> IsValid(fm, Fragment(keys), v)
  {
    var f, g := Fragment(keys), Fragment(keys[kw := s]);
    assert Declared(f) == Declared(g);
    forall k | k in keys ensures Keeps(fm, g, k, v) <==> Keeps(fm, f, k, v) {
      if k == kw {
        SilentHolds(fm, f, k, v);
        SilentHolds(fm, g, k, v);
      } else {
        SameKeyword(fm, f, g, k, v);
      }
    }
    SilentHolds(fm, g, kw, v);
  }

  lemma SilentHolds(fm: Formats, f: Fragment, kw: Keyword, v: Value)
    requires IsSilent(kw) && kw in f.keys
    ensures Keeps(fm, f, kw, v)
  {
  }

  /** One of `type`, `enum` and `const`, in the form the emitter writes it before nullability. */
  predicate HasOneHead(keys: Keys) {
    && AnyOfKey !in keys
    && (TypeKey in keys ==> keys[TypeKey].OneType? && EnumKey !in keys && ConstKey !in keys)
    && (EnumKey in keys ==> keys[EnumKey].Choices? && ConstKey !in keys)
    && (ConstKey in keys ==> keys[ConstKey].Exactly?)
    && (TypeKey in keys || EnumKey in keys || ConstKey in keys)
  }

  lemma BodyHasOneHead(n: Node, base: Keys)
    requires WellKeyed(n) && EmittedBase(n.kind) == Ok(base) && Refined(base, n.refs).Ok? && IsBuildable(n)
    ensures HasOneHead(Refined(base, n.refs).value)
  {
    BaseKeysAreBase(n.kind);
    forall r | r in n.refs
      ensures WrittenBy(r.name) !! {AnyOfKey, EnumKey, ConstKey}
      ensures TypeKey in WrittenBy(r.name) ==> n.kind.NumberKind?
    {
      WrittenOutsideBase(r.name);
    }
    RefinedKept(base, n.refs, AnyOfKey);
    RefinedKept(base, n.refs, EnumKey);
    RefinedKept(base, n.refs, ConstKey);
    if n.kind.NumberKind? {
      TypeStays(base, n.refs);
    } else {
      RefinedKept(base, n.refs, TypeKey);
    }
  }

  lemma {:induction false} TypeStays(keys: Keys, refs: seq<Refinement>)
    requires Refined(keys, refs).Ok? && TypeKey in keys && keys[TypeKey].OneType?
    ensures TypeKey in Refined(keys, refs).value && Refined(keys, refs).value[TypeKey].OneType?
  {
    if refs != [] {
      TypeStays(keys, Front(refs));
    }
  }

  /** Everything outside the moved heads holds. */
  ghost predicate OthersKeep(fm: Formats, keys: Keys, moved: set<Keyword>, v: Value) {
    forall kw | kw in keys && kw !in moved :: Keeps(fm, Fragment(keys), kw, v)
  }

  lemma OthersUnmoved(fm: Formats, keys: Keys, next: Keys, moved: set<Keyword>, v: Value)
    requires moved <= {TypeKey, EnumKey, ConstKey, AnyOfKey}
    requires forall kw | kw !in moved :: (kw in keys <==> kw in next) && (kw in keys ==> keys[kw] == next[kw])
    ensures OthersKeep(fm, keys, moved, v) <==> OthersKeep(fm, next, moved, v)
  {
    forall kw | kw in keys && kw !in moved
      ensures Keeps(fm, Fragment(keys), kw, v) <==> Keeps(fm, Fragment(next), kw, v)
    {
      SameKeyword(fm, Fragment(keys), Fragment(next), kw, v);
    }
  }

  /** A keyword other than a head asserts nothing of `null`. */
  lemma NullPasses(fm: Formats, keys: Keys, moved: set<Keyword>)
    requires forall kw | kw in keys && kw !in moved :: !kw.TypeKey? && !kw.EnumKey? && !kw.ConstKey? && !kw.AnyOfKey?
    ensures OthersKeep(fm, keys, moved, Null)
  {
  }

  lemma SplitHead(fm: Formats, keys: Keys, head: Keyword, v: Value)
    requires head in keys
    ensures IsValid(fm, Fragment(keys), v) <==> Keeps(fm, Fragment(keys), head, v) && OthersKeep(fm, keys, {head}, v)
  {
  }

  lemma NulledType(fm: Formats, keys: Keys, v: Value)
    requires HasOneHead(keys) && TypeKey in keys
    ensures IsValid(fm, Fragment(Nulled(keys)), v) <==> v.Null? || IsValid(fm, Fragment(keys), v)
  {
    var t, next := keys[TypeKey].t, Nulled(keys);
    OthersUnmoved(fm, keys, next, {TypeKey}, v);
    NullPasses(fm, keys, {TypeKey});
    SplitHead(fm, keys, TypeKey, v);
    SplitHead(fm, next, TypeKey, v);
    KeepsIsAsserts(fm, Fragment(keys), TypeKey, v);
    KeepsIsAsserts(fm, Fragment(next), TypeKey, v);
    assert t in [t, NullType] && NullType in [t, NullType];
    assert Asserts(fm, TypeKey, next[TypeKey], v) <==> v.Null? || HasType(t, v);
  }

  lemma NulledEnum(fm: Formats, keys: Keys, v: Value)
    requires HasOneHead(keys) && EnumKey in keys
    ensures IsValid(fm, Fragment(Nulled(keys)), v) <==> v.Null? || IsValid(fm, Fragment(keys), v)
  {
    var next := Nulled(keys);
    OthersUnmoved(fm, keys, next, {EnumKey}, v);
    NullPasses(fm, keys, {EnumKey});
    SplitHead(fm, keys, EnumKey, v);
    SplitHead(fm, next, EnumKey, v);
    KeepsIsAsserts(fm, Fragment(keys), EnumKey, v);
    KeepsIsAsserts(fm, Fragment(next), EnumKey, v);
    assert v in next[EnumKey].values <==> v.Null? || v in keys[EnumKey].values;
  }

  lemma BranchMeaning(fm: Formats, s: Setting, v: Value)
    ensures IsValid(fm, NULL_FRAGMENT, v) <==> v.Null?
    ensures IsValid(fm, Fragment(map[ConstKey := s]), v) <==> Asserts(fm, ConstKey, s, v)
  {
    OneKeyword(fm, TypeKey, OneType(NullType), v);
    OneKeyword(fm, ConstKey, s, v);
  }

  lemma AnyOfMeaning(fm: Formats, f: Fragment, s: Setting, v: Value)
    requires AnyOfKey in f.keys && f.keys[AnyOfKey] == Alternatives([Fragment(map[ConstKey := s]), NULL_FRAGMENT])
    ensures Keeps(fm, f, AnyOfKey, v) <==> v.Null? || Asserts(fm, ConstKey, s, v)
  {
    var branches := f.keys[AnyOfKey].branches;
    assert branches[0] in branches && branches[1] in branches;
    BranchMeaning(fm, s, v);
  }

  lemma NulledConst(fm: Formats, keys: Keys, v: Value)
    requires HasOneHead(keys) && ConstKey in keys
    ensures IsValid(fm, Fragment(Nulled(keys)), v) <==> v.Null? || IsValid(fm, Fragment(keys), v)
  {
    var s, next := keys[ConstKey], Nulled(keys);
    OthersUnmoved(fm, keys, next, {ConstKey, AnyOfKey}, v);
    NullPasses(fm, keys, {ConstKey, AnyOfKey});
    SplitHead(fm, keys, ConstKey, v);
    SplitHead(fm, next, AnyOfKey, v);
    AnyOfMeaning(fm, Fragment(next), s, v);
    KeepsIsAsserts(fm, Fragment(keys), ConstKey, v);
  }

  lemma FinishedMeaning(fm: Formats, keys: Keys, n: Node, v: Value)
    requires HasOneHead(keys)
    ensures IsValid(fm, Fragment(Finished(keys, n)), v) <==> (n.mods.nullable && v.Null?) || IsValid(fm, Fragment(keys), v)
  {
    var described := Described(keys, n.meta);
    DescribedMeaning(fm, keys, n.meta, v);
    if n.mods.nullable {
      if TypeKey in keys {
        NulledType(fm, described, v);
      } else if EnumKey in keys {
        NulledEnum(fm, described, v);
      } else {
        NulledConst(fm, described, v);
      }
    }
    DefaultedMeaning(fm, if n.mods.nullable then Nulled(described) else described, n.mods, v);
  }

  lemma DescribedMeaning(fm: Formats, keys: Keys, meta: Metadata, v: Value)
    ensures IsValid(fm, Fragment(Described(keys, meta)), v) <==> IsValid(fm, Fragment(keys), v)
    ensures HasOneHead(keys) ==> HasOneHead(Described(keys, meta))
  {
    var described := Described(keys, meta.(deprecated := None));
    if meta.description.Some? {
      SilentKeyword(fm, keys, DescriptionKey, Text(meta.description.value), v);
    }
    SilentKeyword(fm, described, DeprecatedKey, Flag(true), v);
  }

  lemma DefaultedMeaning(fm: Formats, keys: Keys, m: Modifiers, v: Value)
    ensures IsValid(fm, Fragment(Defaulted(keys, m)), v) <==> IsValid(fm, Fragment(keys), v)
  {
    if m.default.Some? {
      var s := Exactly(m.default.value);
      SilentKeyword(fm, keys, DefaultKey, s, v);
      SilentKeyword(fm, keys[DefaultKey := s], DefaultAppliedByKey, Text("runtime"), v);
    }
  }

  // ---- Objects ----

  lemma {:induction false} RequiredKeysMembers(fields: map<string, Node>, order: seq<string>, k: string)
    requires forall k | k in order :: k in fields
    ensures k in RequiredKeys(fields, order) <==> k in order && IsObjectRequired(fields[k])
  {
    if order != [] {
      RequiredKeysMembers(fields, Front(order), k);
      assert order == Front(order) + [LastOf(order)];
    }
  }

  /** What `required` leaves out may be absent after stripping. */
  lemma AbsenceMeaning(fm: Formats, n: Node)
    ensures Accepts(fm, Strip(n), Undefined) <==> !IsObjectRequired(n)
  {
    assert !AcceptsBase(fm, Strip(n).kind, Undefined);
  }

  ghost predicate MatchesFields(fm: Formats, kind: Kind, fields: map<string, Fragment>, v: Value)
    requires kind.ObjectOf?
  {
    && v.Obj?
    && PropertiesMatch(fm, fields, v)
    && RequiredArePresent(kind, v)
    && (kind.unknownKeys.Strict? ==> NothingExtra(fields, v))
  }

  ghost predicate PropertiesMatch(fm: Formats, fields: map<string, Fragment>, v: Value) {
    v.Obj? ==> forall k | k in fields && k in v.props :: IsValid(fm, fields[k], v.props[k])
  }

  ghost predicate RequiredArePresent(kind: Kind, v: Value)
    requires kind.ObjectOf?
  {
    v.Obj? ==> forall k | k in kind.fields && IsObjectRequired(kind.fields[k]) :: k in v.props
  }

  ghost predicate NothingExtra(fields: map<string, Fragment>, v: Value) {
    v.Obj? ==> forall k | k in v.props :: k in fields
  }

  /** The keywords of an object fragment, one by one. */
  ghost predicate IsObjectFragment(kind: Kind, fields: map<string, Fragment>, f: Fragment)
    requires kind.ObjectOf? && forall k | k in kind.order :: k in kind.fields
  {
    var required := RequiredKeys(kind.fields, kind.order);
    && TypeKey in f.keys && f.keys[TypeKey] == OneType(ObjectType)
    && PropertiesKey in f.keys && f.keys[PropertiesKey] == Properties(fields)
    && (if required == [] then RequiredKey !in f.keys else RequiredKey in f.keys && f.keys[RequiredKey] == Names(required))
    && AdditionalPropertiesKey in f.keys && f.keys[AdditionalPropertiesKey] == Flag(!kind.unknownKeys.Strict?)
    && f.keys.Keys <= {TypeKey, PropertiesKey, RequiredKey, AdditionalPropertiesKey, StripKey}
  }

  lemma ObjectKeysAreListed(kind: Kind, fields: map<string, Fragment>)
    requires kind.ObjectOf? && forall k | k in kind.order :: k in kind.fields
    ensures IsObjectFragment(kind, fields, Fragment(ObjectKeys(kind, fields)))
  {
  }

  /** What the keyword `kw` of an object fragment asserts. */
  ghost predicate KeywordMatches(fm: Formats, kind: Kind, fields: map<string, Fragment>, kw: Keyword, v: Value)
    requires kind.ObjectOf?
  {
    match kw
    case TypeKey => v.Obj?
    case PropertiesKey => PropertiesMatch(fm, fields, v)
    case RequiredKey => RequiredArePresent(kind, v)
    case AdditionalPropertiesKey => kind.unknownKeys.Strict? ==> NothingExtra(fields, v)
    case _ => true
  }

  lemma ObjectTypeKeyword(fm: Formats, kind: Kind, fields: map<string, Fragment>, f: Fragment, kw: Keyword, v: Value)
    requires kind.ObjectOf? && WellKeyedKind(kind) && (forall k | k in kind.fields :: k in kind.order)
    requires IsObjectFragment(kind, fields, f) && kw == TypeKey
    ensures (kw in f.keys ==> Keeps(fm, f, kw, v)) <==> KeywordMatches(fm, kind, fields, kw, v)
  {
    KeepsIsAsserts(fm, f, TypeKey, v);
  }

  lemma ObjectPropertiesKeyword(fm: Formats, kind: Kind, fields: map<string, Fragment>, f: Fragment, kw: Keyword, v: Value)
    requires kind.ObjectOf? && WellKeyedKind(kind) && (forall k | k in kind.fields :: k in kind.order)
    requires IsObjectFragment(kind, fields, f) && kw == PropertiesKey
    ensures (kw in f.keys ==> Keeps(fm, f, kw, v)) <==> KeywordMatches(fm, kind, fields, kw, v)
  {
    PropertiesMeaning(fm, f, fields, v);
  }

  lemma ObjectRequiredKeyword(fm: Formats, kind: Kind, fields: map<string, Fragment>, f: Fragment, kw: Keyword, v: Value)
    requires kind.ObjectOf? && WellKeyedKind(kind) && (forall k | k in kind.fields :: k in kind.order)
    requires IsObjectFragment(kind, fields, f) && kw == RequiredKey
    ensures (kw in f.keys ==> Keeps(fm, f, kw, v)) <==> KeywordMatches(fm, kind, fields, kw, v)
  {
    RequiredMeaning(fm, kind, f, v);
  }

  lemma ObjectAdditionalKeyword(fm: Formats, kind: Kind, fields: map<string, Fragment>, f: Fragment, kw: Keyword, v: Value)
    requires kind.ObjectOf? && WellKeyedKind(kind) && (forall k | k in kind.fields :: k in kind.order)
    requires IsObjectFragment(kind, fields, f) && kw == AdditionalPropertiesKey
    ensures (kw in f.keys ==> Keeps(fm, f, kw, v)) <==> KeywordMatches(fm, kind, fields, kw, v)
  {
    PropertiesMeaning(fm, f, fields, v);
    AdditionalMeaning(fm, f, fields, kind.unknownKeys, v);
  }

  lemma OtherKeyword(fm: Formats, kind: Kind, fields: map<string, Fragment>, f: Fragment, kw: Keyword, v: Value)
    requires kind.ObjectOf? && forall k | k in kind.order :: k in kind.fields
    requires IsObjectFragment(kind, fields, f)
    requires kw !in {TypeKey, PropertiesKey, RequiredKey, AdditionalPropertiesKey}
    ensures (kw in f.keys ==> Keeps(fm, f, kw, v)) <==> KeywordMatches(fm, kind, fields, kw, v)
  {
    if kw in f.keys {
      assert kw == StripKey;
      KeepsIsAsserts(fm, f, StripKey, v);
    }
  }

  lemma ObjectKeyword(fm: Formats, kind: Kind, fields: map<string, Fragment>, f: Fragment, kw: Keyword, v: Value)
    requires kind.ObjectOf? && WellKeyedKind(kind) && (forall k | k in kind.fields :: k in kind.order)
    requires IsObjectFragment(kind, fields, f)
    ensures (kw in f.keys ==> Keeps(fm, f, kw, v)) <==> KeywordMatches(fm, kind, fields, kw, v)
  {
    if kw == TypeKey {
      ObjectTypeKeyword(fm, kind, fields, f, kw, v);
    } else if kw == PropertiesKey {
      ObjectPropertiesKeyword(fm, kind, fields, f, kw, v);
    } else if kw == RequiredKey {
      ObjectRequiredKeyword(fm, kind, fields, f, kw, v);
    } else if kw == AdditionalPropertiesKey {
      ObjectAdditionalKeyword(fm, kind, fields, f, kw, v);
    } else {
      OtherKeyword(fm, kind, fields, f, kw, v);
    }
  }

  lemma ObjectKeysMeaning(fm: Formats, kind: Kind, fields: map<string, Fragment>, f: Fragment, v: Value)
    requires kind.ObjectOf? && WellKeyedKind(kind) && (forall k | k in kind.fields :: k in kind.order)
    requires IsObjectFragment(kind, fields, f)
    ensures IsValid(fm, f, v) <==> MatchesFields(fm, kind, fields, v)
  {
    forall kw ensures (kw in f.keys ==> Keeps(fm, f, kw, v)) <==> KeywordMatches(fm, kind, fields, kw, v) {
      ObjectKeyword(fm, kind, fields, f, kw, v);
    }
    assert MatchesFields(fm, kind, fields, v) <==> forall kw :: KeywordMatches(fm, kind, fields, kw, v) by {
      MatchesKeywordwise(fm, kind, fields, v);
    }
  }

  lemma MatchesKeywordwise(fm: Formats, kind: Kind, fields: map<string, Fragment>, v: Value)
    requires kind.ObjectOf?
    ensures MatchesFields(fm, kind, fields, v) <==> forall kw :: KeywordMatches(fm, kind, fields, kw, v)
  {
    if forall kw :: KeywordMatches(fm, kind, fields, kw, v) {
      assert KeywordMatches(fm, kind, fields, TypeKey, v) && KeywordMatches(fm, kind, fields, PropertiesKey, v);
      assert KeywordMatches(fm, kind, fields, RequiredKey, v) && KeywordMatches(fm, kind, fields, AdditionalPropertiesKey, v);
    }
  }

  lemma PropertiesMeaning(fm: Formats, f: Fragment, fields: map<string, Fragment>, v: Value)
    requires PropertiesKey in f.keys && f.keys[PropertiesKey] == Properties(fields)
    ensures Keeps(fm, f, PropertiesKey, v) <==> PropertiesMatch(fm, fields, v)
    ensures Declared(f) == fields
  {
  }

  lemma AdditionalMeaning(fm: Formats, f: Fragment, fields: map<string, Fragment>, u: UnknownKeys, v: Value)
    requires AdditionalPropertiesKey in f.keys && f.keys[AdditionalPropertiesKey] == Flag(!u.Strict?)
    requires Declared(f) == fields
    ensures Keeps(fm, f, AdditionalPropertiesKey, v) <==> (u.Strict? ==> NothingExtra(fields, v))
  {
  }

  lemma RequiredMeaning(fm: Formats, kind: Kind, f: Fragment, v: Value)
    requires kind.ObjectOf? && WellKeyedKind(kind) && (forall k | k in kind.fields :: k in kind.order)
    requires var required := RequiredKeys(kind.fields, kind.order);
             if required == [] then RequiredKey !in f.keys else RequiredKey in f.keys && f.keys[RequiredKey] == Names(required)
    ensures (RequiredKey in f.keys ==> Keeps(fm, f, RequiredKey, v)) <==> RequiredArePresent(kind, v)
  {
    var required := RequiredKeys(kind.fields, kind.order);
    forall k ensures k in required <==> k in kind.fields && IsObjectRequired(kind.fields[k]) {
      RequiredKeysMembers(kind.fields, kind.order, k);
    }
    if RequiredKey in f.keys {
      KeepsIsAsserts(fm, f, RequiredKey, v);
    }
  }

  // ---- Arrays and scalars ----

  lemma ArrayMeaning(fm: Formats, e: Fragment, v: Value)
    ensures IsValid(fm, Fragment(map[TypeKey := OneType(ArrayType), ItemsKey := Items(e)]), v) <==>
            v.Arr? && forall x | x in v.items :: IsValid(fm, e, x)
  {
    var f := Fragment(map[TypeKey := OneType(ArrayType), ItemsKey := Items(e)]);
    KeepsIsAsserts(fm, f, TypeKey, v);
    assert Keeps(fm, f, ItemsKey, v) <==> (v.Arr? ==> forall x | x in v.items :: IsValid(fm, e, x));
    assert TypeKey in f.keys && ItemsKey in f.keys && forall kw | kw in f.keys :: kw == TypeKey || kw == ItemsKey;
  }

  lemma ScalarMeaning(fm: Formats, n: Node, v: Value)
    requires WellKeyed(n) && EmittedBase(n.kind).Ok? && IsBuildable(n) && !n.kind.ArrayOf? && !n.kind.ObjectOf?
    ensures IsValid(fm, Fragment(EmittedBase(n.kind).value), v) <==> AcceptsBase(fm, Strip(n).kind, v)
  {
    match n.kind {
      case Literal(x) => OneKeyword(fm, ConstKey, Exactly(x), v);
      case Enum(values) => OneKeyword(fm, EnumKey, Choices(values), v);
      case StringKind => OneKeyword(fm, TypeKey, OneType(StringType), v);
      case NumberKind => OneKeyword(fm, TypeKey, OneType(NumberType), v);
      case BooleanKind => OneKeyword(fm, TypeKey, OneType(BooleanType), v);
    }
  }

  // ---- The theorems ----

  /** The bare kind of `n`, given what its children mean. */
  lemma ObjectAdmits(fm: Formats, n: Node, fields: map<string, Fragment>, v: Value)
    requires WellKeyed(n) && n.kind.ObjectOf? && fields.Keys == n.kind.fields.Keys
    requires v.Obj? ==> forall k | k in fields && k in v.props ::
      Accepts(fm, Strip(n.kind.fields[k]), v.props[k]) ==> IsValid(fm, fields[k], v.props[k])
    requires AcceptsBase(fm, Strip(n).kind, v)
    ensures MatchesFields(fm, n.kind, fields, v)
  {
    forall k | k in fields
      ensures k in v.props ==> IsValid(fm, fields[k], v.props[k])
      ensures IsObjectRequired(n.kind.fields[k]) ==> k in v.props
    {
      assert Accepts(fm, Strip(n).kind.fields[k], Lookup(v.props, k));
      AbsenceMeaning(fm, n.kind.fields[k]);
    }
  }

  lemma ObjectAdmitsOnly(fm: Formats, n: Node, fields: map<string, Fragment>, v: Value)
    requires WellKeyed(n) && n.kind.ObjectOf? && fields.Keys == n.kind.fields.Keys
    requires v.Obj? ==> forall k | k in fields && k in v.props ::
      IsValid(fm, fields[k], v.props[k]) ==> Accepts(fm, Strip(n.kind.fields[k]), v.props[k])
    requires MatchesFields(fm, n.kind, fields, v)
    ensures AcceptsBase(fm, Strip(n).kind, v)
  {
    forall k | k in n.kind.fields ensures Accepts(fm, Strip(n).kind.fields[k], Lookup(v.props, k)) {
      AbsenceMeaning(fm, n.kind.fields[k]);
    }
  }

  /** Emission never compiles to less than the schema: no accepted JSON value is invalid. Overwriting only weakens. */
  lemma {:induction false} FragmentAdmits(fm: Formats, n: Node, v: Value)
    requires WellKeyed(n) && Emitted(n).Ok? && IsBuildable(n)
    requires IsJson(v) && IsBmpValue(v)
    requires Accepts(fm, Strip(n), v)
    ensures IsValid(fm, Emitted(n).value, v)
    decreases n, 1
  {
    var base := EmittedBase(n.kind).value;
    BodyHasOneHead(n, base);
    FinishedMeaning(fm, Refined(base, n.refs).value, n, v);
    if AcceptsBody(fm, Strip(n), v) {
      BaseAdmits(fm, n, v);
      BodyAdmits(fm, n, base, v);
    }
  }

  lemma {:induction false} BaseAdmits(fm: Formats, n: Node, v: Value)
    requires WellKeyed(n) && EmittedBase(n.kind).Ok? && IsBuildable(n)
    requires IsJson(v) && IsBmpValue(v)
    requires AcceptsBase(fm, Strip(n).kind, v)
    ensures IsValid(fm, Fragment(EmittedBase(n.kind).value), v)
    decreases n, 0
  {
    match n.kind {
      case ArrayOf(e) =>
        forall x | x in v.items ensures IsValid(fm, Emitted(e).value, x) {
          FragmentAdmits(fm, e, x);
        }
        ArrayMeaning(fm, Emitted(e).value, v);
      case ObjectOf(fields, order, _) =>
        FieldsEmit(n.kind, order);
        var frags := EmittedFields(n.kind, order).value;
        forall k | k in frags && k in v.props && Accepts(fm, Strip(fields[k]), v.props[k])
          ensures IsValid(fm, frags[k], v.props[k])
        {
          FragmentAdmits(fm, fields[k], v.props[k]);
        }
        ObjectAdmits(fm, n, frags, v);
        ObjectKeysAreListed(n.kind, frags);
        ObjectKeysMeaning(fm, n.kind, frags, Fragment(ObjectKeys(n.kind, frags)), v);
      case _ => ScalarMeaning(fm, n, v);
    }
  }

  /** Where every refinement is upheld, emission compiles to no more either. */
  lemma {:induction false} FragmentAdmitsOnly(fm: Formats, n: Node, v: Value)
    requires WellKeyed(n) && Emitted(n).Ok? && IsBuildable(n) && NothingLoosened(n)
    requires IsJson(v) && IsBmpValue(v)
    requires IsValid(fm, Emitted(n).value, v)
    ensures Accepts(fm, Strip(n), v)
    decreases n, 1
  {
    var base := EmittedBase(n.kind).value;
    BodyHasOneHead(n, base);
    FinishedMeaning(fm, Refined(base, n.refs).value, n, v);
    if !(n.mods.nullable && v.Null?) {
      BodyAdmitsOnly(fm, n, base, v);
      BaseAdmitsOnly(fm, n, v);
    }
  }

  lemma {:induction false} BaseAdmitsOnly(fm: Formats, n: Node, v: Value)
    requires WellKeyed(n) && EmittedBase(n.kind).Ok? && IsBuildable(n) && NothingLoosened(n)
    requires IsJson(v) && IsBmpValue(v)
    requires IsValid(fm, Fragment(EmittedBase(n.kind).value), v)
    ensures AcceptsBase(fm, Strip(n).kind, v)
    decreases n, 0
  {
    match n.kind {
      case ArrayOf(e) =>
        ArrayMeaning(fm, Emitted(e).value, v);
        forall x | x in v.items ensures Accepts(fm, Strip(e), x) {
          FragmentAdmitsOnly(fm, e, x);
        }
      case ObjectOf(fields, order, _) =>
        FieldsEmit(n.kind, order);
        var frags := EmittedFields(n.kind, order).value;
        ObjectKeysAreListed(n.kind, frags);
        ObjectKeysMeaning(fm, n.kind, frags, Fragment(ObjectKeys(n.kind, frags)), v);
        forall k | k in frags && k in v.props && IsValid(fm, frags[k], v.props[k])
          ensures Accepts(fm, Strip(fields[k]), v.props[k])
        {
          FragmentAdmitsOnly(fm, fields[k], v.props[k]);
        }
        ObjectAdmitsOnly(fm, n, frags, v);
      case _ => ScalarMeaning(fm, n, v);
    }
  }
}
