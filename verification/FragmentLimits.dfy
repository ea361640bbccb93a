/** When the JSON Schema of a node says what the node says, and the inputs on which it does not. */
module FragmentLimits {
  import opened Values
  import opened Schema
  import opened Diff
  import opened DiffSoundness
  import opened DiffExactness
  import opened StripDefaults
  import opened Fragment
  import opened FragmentMeaning

  /** A JSON value whose text has no astral character. */
  predicate IsPlainJson(v: Value) {
    IsJson(v) && IsBmpValue(v)
  }

  // ---- Defaults ----

  /** Every default of an object field is accepted by the field; no other default bears on a JSON value. */
  predicate FieldDefaultsAccepted(fm: Formats, n: Node) {
    match n.kind
    case ArrayOf(e) => FieldDefaultsAccepted(fm, e)
    case ObjectOf(fields, _, _) =>
      forall k | k in fields :: DefaultAccepted(fm, fields[k]) && FieldDefaultsAccepted(fm, fields[k])
    case _ => true
  }

  lemma {:induction false} JsonValidIsParsed(fm: Formats, n: Node, v: Value)
    requires FieldDefaultsAccepted(fm, n) && IsJson(v)
    requires Accepts(fm, Strip(n), v)
    ensures Accepts(fm, n, v)
    decreases n
  {
    var s := Strip(n);
    if AcceptsBody(fm, s, v) {
      match n.kind {
        case ArrayOf(e) =>
          forall x | x in v.items ensures Accepts(fm, e, x) {
            JsonValidIsParsed(fm, e, x);
          }
        case ObjectOf(fields, _, _) =>
          forall k | k in fields ensures Accepts(fm, fields[k], Lookup(v.props, k)) {
            assert s.kind.fields[k] == Strip(fields[k]);
            if k in v.props {
              JsonValidIsParsed(fm, fields[k], v.props[k]);
            } else {
              AbsenceMeaning(fm, fields[k]);
            }
          }
        case _ =>
      }
      assert AcceptsBase(fm, n.kind, v);
    }
  }

  /** Some plain JSON value is accepted by each object and each non-empty array of the schema. */
  ghost predicate JsonPopulated(fm: Formats, n: Node) {
    match n.kind
    case ArrayOf(e) =>
      && JsonPopulated(fm, e)
      && exists xs: seq<Value> :: xs != [] && IsPlainJson(Arr(xs)) && AcceptsBody(fm, n, Arr(xs))
    case ObjectOf(fields, _, _) =>
      && (forall k | k in fields :: JsonPopulated(fm, fields[k]))
      && exists o: map<string, Value> :: IsPlainJson(Obj(o)) && AcceptsBody(fm, n, Obj(o))
    case _ => true
  }

  /** A field default that the field rejects shows in a JSON value. */
  lemma {:induction false} BadFieldDefaultShows(fm: Formats, n: Node) returns (v: Value)
    requires JsonPopulated(fm, n) && !FieldDefaultsAccepted(fm, n)
    ensures IsPlainJson(v) && Accepts(fm, Strip(n), v) && !Accepts(fm, n, v)
    decreases n, 1
  {
    if n.kind.ArrayOf? {
      var xs: seq<Value> :| xs != [] && IsPlainJson(Arr(xs)) && AcceptsBody(fm, n, Arr(xs));
      BaseParsedIsValid(fm, n, Arr(xs));
      var x := BadFieldDefaultShows(fm, n.kind.element);
      ArrayWitness(fm, Strip(n), n, xs, x);
      v := Arr(xs[0 := x]);
    } else {
      v := BadObjectDefaultShows(fm, n);
    }
  }

  lemma {:induction false} BadObjectDefaultShows(fm: Formats, n: Node) returns (v: Value)
    requires n.kind.ObjectOf? && JsonPopulated(fm, n) && !FieldDefaultsAccepted(fm, n)
    ensures IsPlainJson(v) && Accepts(fm, Strip(n), v) && !Accepts(fm, n, v)
    decreases n, 0
  {
    var fields := n.kind.fields;
    var o: map<string, Value> :| IsPlainJson(Obj(o)) && AcceptsBody(fm, n, Obj(o));
    BaseParsedIsValid(fm, n, Obj(o));
    var key :| key in fields && !(DefaultAccepted(fm, fields[key]) && FieldDefaultsAccepted(fm, fields[key]));
    if DefaultAccepted(fm, fields[key]) {
      var x := BadFieldDefaultShows(fm, fields[key]);
      FieldWitness(fm, Strip(n), n, o, key, x);
      v := Obj(o[key := x]);
    } else {
      AbsenceWitness(fm, n, o, key);
      v := Obj(o - {key});
    }
  }

  lemma AbsenceWitness(fm: Formats, n: Node, o: map<string, Value>, key: string)
    requires n.kind.ObjectOf? && key in n.kind.fields && !DefaultAccepted(fm, n.kind.fields[key])
    requires AcceptsBody(fm, Strip(n), Obj(o))
    ensures Accepts(fm, Strip(n), Obj(o - {key})) && !Accepts(fm, n, Obj(o - {key}))
  {
    var p := o - {key};
    assert forall k | k != key :: Lookup(p, k) == Lookup(o, k);
    AbsenceMeaning(fm, n.kind.fields[key]);
    assert Strip(n).kind.fields[key] == Strip(n.kind.fields[key]);
    ObjectWitness(fm, Strip(n), n, o, p, key);
  }

  /** The compiled JSON Schema and the schema agree on `v`. */
  predicate AgreesOn(fm: Formats, n: Node, v: Value)
    requires WellKeyed(n) && Emitted(n).Ok?
  {
    IsValid(fm, Emitted(n).value, v) <==> Accepts(fm, n, v)
  }

  /** Nothing accepted is ever invalid, whatever is overwritten and whatever the defaults. */
  lemma AcceptedIsValid(fm: Formats, n: Node, v: Value)
    requires WellKeyed(n) && Emitted(n).Ok? && IsBuildable(n)
    requires IsPlainJson(v) && Accepts(fm, n, v)
    ensures IsValid(fm, Emitted(n).value, v)
  {
    ParsedIsValid(fm, n, v);
    FragmentAdmits(fm, n, v);
  }

  /** JSON Schema compilation preserves meaning. */
  lemma CompilationPreservesMeaning(fm: Formats, n: Node, v: Value)
    requires WellKeyed(n) && Emitted(n).Ok? && IsBuildable(n) && NothingLoosened(n) && FieldDefaultsAccepted(fm, n)
    requires IsPlainJson(v)
    ensures AgreesOn(fm, n, v)
  {
    if Accepts(fm, n, v) {
      AcceptedIsValid(fm, n, v);
    }
    if IsValid(fm, Emitted(n).value, v) {
      FragmentAdmitsOnly(fm, n, v);
      JsonValidIsParsed(fm, n, v);
    }
  }

  /** ... and of the defaults this is the exact condition. */
  lemma AgreesIffFieldDefaultsAccepted(fm: Formats, n: Node)
    requires WellKeyed(n) && Emitted(n).Ok? && IsBuildable(n) && NothingLoosened(n) && JsonPopulated(fm, n)
    ensures (forall v | IsPlainJson(v) :: AgreesOn(fm, n, v)) <==> FieldDefaultsAccepted(fm, n)
  {
    if FieldDefaultsAccepted(fm, n) {
      forall v | IsPlainJson(v) ensures AgreesOn(fm, n, v) {
        CompilationPreservesMeaning(fm, n, v);
      }
    } else {
      var v := BadFieldDefaultShows(fm, n);
      FragmentAdmits(fm, n, v);
      assert !AgreesOn(fm, n, v);
    }
  }

  // ---- Overwriting ----

  /** Every value that passes what stands also passes what it replaced. */
  ghost predicate LosesNothing(kw: Keyword, s: Setting, t: Setting) {
    forall fm, v | Asserts(fm, kw, t, v) :: Asserts(fm, kw, s, v)
  }

  /** A value at the bound `x` of a keyword. */
  function ValueAt(kw: Keyword, x: real): Value {
    match kw
    case MinLengthKey => Str(seq(Abs(x.Floor), _ => 'a'))
    case MaxLengthKey => Str(seq(Abs(x.Floor), _ => 'a'))
    case MinItemsKey => Arr(seq(Abs(x.Floor), _ => Null))
    case MaxItemsKey => Arr(seq(Abs(x.Floor), _ => Null))
    case _ => Num(x)
  }

  function Abs(x: int): nat {
    if x < 0 then -x else x
  }

  predicate CountsItems(kw: Keyword) {
    kw.MinLengthKey? || kw.MaxLengthKey? || kw.MinItemsKey? || kw.MaxItemsKey?
  }

  /** A bound may stand for another, without loss, exactly when it is no looser. */
  lemma LosesNothingIffTighter(kw: Keyword, x: real, y: real)
    requires IsLowerBound(kw) || IsUpperBound(kw)
    requires CountsItems(kw) ==> IsCount(x) && IsCount(y)
    ensures LosesNothing(kw, Amount(x), Amount(y)) <==> Tightens(kw, Amount(x), Amount(y))
  {
    var fm := Formats((_, _, _) => true, (_, _) => true);
    if Tightens(kw, Amount(x), Amount(y)) {
      forall fm, v | Asserts(fm, kw, Amount(y), v) ensures Asserts(fm, kw, Amount(x), v) {
        TightensImplies(fm, kw, Amount(x), Amount(y), v);
      }
    } else {
      var between := if kw.ExclusiveMinimumKey? || kw.ExclusiveMaximumKey? then (x + y) / 2.0 else y;
      var v := ValueAt(kw, between);
      assert Asserts(fm, kw, Amount(y), v) && !Asserts(fm, kw, Amount(x), v);
    }
  }

  lemma {:induction false} OneKeywordRefined(keys: Keys, refs: seq<Refinement>, name: RefinementName)
    requires refs != [] && (forall r | r in refs :: IsBound(r) && r.name == name)
    ensures RefinementError(LastOf(refs)).None? && Refined(keys, refs) == Ok(keys + Settings(LastOf(refs)))
  {
    assert LastOf(refs) in refs && forall r | r in Front(refs) :: r in refs;
    if |refs| > 1 {
      OneKeywordRefined(keys, Front(refs), name);
      assert LastOf(Front(refs)) in refs;
      SettingsKeys(LastOf(refs));
      SettingsKeys(LastOf(Front(refs)));
      assert keys + Settings(LastOf(Front(refs))) + Settings(LastOf(refs)) == keys + Settings(LastOf(refs));
    } else {
      assert Refined(keys, Front(refs)) == Ok(keys);
    }
  }

  /** The keyword a bound writes. */
  function KeywordOf(name: RefinementName): Keyword {
    match name
    case MinLength => MinLengthKey
    case MaxLength => MaxLengthKey
    case MinItems => MinItemsKey
    case MaxItems => MaxItemsKey
    case Min => MinimumKey
    case Max => MaximumKey
    case Gt => ExclusiveMinimumKey
    case _ => ExclusiveMaximumKey
  }

  lemma SettingsOfBound(r: Refinement)
    requires IsBound(r)
    ensures RefinementError(r).None? && Settings(r) == map[KeywordOf(r.name) := Amount(r.params.value)]
    ensures IsFloor(r.name) <==> IsLowerBound(KeywordOf(r.name))
    ensures IsCeiling(r.name) <==> IsUpperBound(KeywordOf(r.name))
  {
  }

  /** For bounds of one name: the last upholds another exactly when moving to the other loosens. */
  lemma UpheldByLast(refs: seq<Refinement>, r: Refinement)
    requires r in refs && forall q | q in refs :: IsBound(q) && q.name == r.name
    ensures RefinementError(r).None?
    ensures IsUpheldBy(r, Refined(map[], refs)) <==> ParamSeverity(LastOf(refs), r).Additive?
  {
    var last := LastOf(refs);
    assert last in refs;
    SettingsOfBound(r);
    SettingsOfBound(last);
    OneKeywordRefined(map[], refs, r.name);
    BoundUpheld(r, last, map[] + Settings(last));
  }

  lemma BoundUpheld(r: Refinement, last: Refinement, end: Keys)
    requires IsBound(r) && IsBound(last) && last.name == r.name
    requires KeywordOf(r.name) in end && end[KeywordOf(r.name)] == Amount(last.params.value)
    ensures RefinementError(r).None?
    ensures IsUpheldBy(r, Ok(end)) <==> ParamSeverity(last, r).Additive?
  {
    SettingsOfBound(r);
    var kw := KeywordOf(r.name);
    assert kw in Settings(r);
    assert IsUpheldBy(r, Ok(end)) <==> Tightens(kw, Amount(r.params.value), Amount(last.params.value));
  }

  /** Of several bounds of one name, the last is what the fragment says, whatever came before. */
  lemma OnlyLastIsEmitted(n: Node, name: RefinementName)
    requires WellKeyed(n) && Emitted(n).Ok? && n.refs != [] && forall r | r in n.refs :: IsBound(r) && r.name == name
    ensures Emitted(n.(refs := [LastOf(n.refs)])) == Emitted(n)
  {
    var base := EmittedBase(n.kind).value;
    assert LastOf(n.refs) in n.refs;
    OneKeywordRefined(base, n.refs, name);
    OneKeywordRefined(base, [LastOf(n.refs)], name);
  }

  /** Overwriting a bound: the fragment of a node with bounds of one name says what the node says if and only if the last
      bound upholds them all. */
  lemma OverwritingAgreesIffUpheld(fm: Formats, n: Node, name: RefinementName, item: Value)
    requires WellKeyed(n) && Emitted(n).Ok? && IsBuildable(n) && FieldDefaultsAccepted(fm, n)
    requires NothingLoosened(n.(refs := [])) && forall r | r in n.refs :: IsBound(r) && r.name == name
    requires n.refs != [] ==> Fits(fm, name, n.kind, item) && IsPlainJson(item)
    ensures (forall v | IsPlainJson(v) :: AgreesOn(fm, n, v)) <==> AreUpheld(n.refs)
  {
    if AreUpheld(n.refs) {
      assert NothingLoosened(n);
      forall v | IsPlainJson(v) ensures AgreesOn(fm, n, v) {
        CompilationPreservesMeaning(fm, n, v);
      }
    } else {
      var r :| r in n.refs && RefinementError(r).None? && !IsUpheldBy(r, Refined(map[], n.refs));
      UpheldByLast(n.refs, r);
      LostBoundShows(fm, n, r, item);
    }
  }

  lemma LostBoundShows(fm: Formats, n: Node, r: Refinement, item: Value)
    requires WellKeyed(n) && Emitted(n).Ok? && IsBuildable(n) && r in n.refs
    requires forall q | q in n.refs :: IsBound(q) && q.name == r.name
    requires ParamSeverity(LastOf(n.refs), r).Breaking? && Fits(fm, r.name, n.kind, item) && IsPlainJson(item)
    ensures exists v :: IsPlainJson(v) && !AgreesOn(fm, n, v)
  {
    var last := LastOf(n.refs);
    assert last in n.refs;
    var v, m := Sample(r.name, Between(last, r), item), n.(refs := [last]);
    TighterBoundShows(fm, last, r, item);
    SampleFits(fm, r.name, n.kind, Between(last, r), item);
    assert AcceptsBody(fm, m, v) && !AcceptsBody(fm, n, v);
    BodyDecides(fm, m, v);
    BodyDecides(fm, n, v);
    OnlyLastIsEmitted(n, r.name);
    AcceptedIsValid(fm, m, v);
    assert IsPlainJson(v) && !AgreesOn(fm, n, v);
  }

  const LENGTH_FOUR := Refinement(Length, Bound(4.0))
  const AT_LEAST_TWO := Refinement(MinLength, Bound(2.0))
  const FOUR_OR_TWO := Node(StringKind, Modifiers(false, false, None), [LENGTH_FOUR, AT_LEAST_TWO], Metadata(None, None, None, None))

  /** `length(4).min(2)` compiles to `minLength: 2, maxLength: 4`: "abc" is valid, yet rejected. */
  lemma LooseningAcceptsMore(fm: Formats)
    ensures WellKeyed(FOUR_OR_TWO) && IsBuildable(FOUR_OR_TWO) && Emitted(FOUR_OR_TWO).Ok?
    ensures IsValid(fm, Emitted(FOUR_OR_TWO).value, Str("abc")) && !Accepts(fm, FOUR_OR_TWO, Str("abc"))
  {
    var base: Keys := map[TypeKey := OneType(StringType)];
    var refs := FOUR_OR_TWO.refs;
    assert Front(Front(refs)) == [] && Front(refs) == [LENGTH_FOUR];
    var keys: Keys := base + Settings(LENGTH_FOUR) + Settings(AT_LEAST_TWO);
    assert Refined(base, Front(refs)) == Ok(base + Settings(LENGTH_FOUR));
    assert Refined(base, refs) == Ok(keys);
    var f := Fragment(keys);
    assert Emitted(FOUR_OR_TWO) == Ok(f);
    forall kw | kw in keys ensures Keeps(fm, f, kw, Str("abc")) {
      assert kw in {TypeKey, MinLengthKey, MaxLengthKey};
    }
    LengthOfAbc();
    assert LENGTH_FOUR in FOUR_OR_TWO.refs && !Holds(fm, LENGTH_FOUR, Str("abc"));
  }

  lemma LengthOfAbc()
    ensures CodeUnits("abc") == 3
  {
    CodeUnitsBounds("abc");
  }

  // ---- Astral characters ----

  /** The runtime's `min(x)` and the keyword `minLength: x` agree on `s`. */
  predicate AgreeOnLength(fm: Formats, s: string, x: real) {
    Holds(fm, Refinement(MinLength, Bound(x)), Str(s)) <==> Asserts(fm, MinLengthKey, Amount(x), Str(s))
  }

  /** JSON Schema counts characters and the runtime counts code units: all bounds agree on BMP text, and on no other. */
  lemma LengthsAgreeIffBmp(fm: Formats, s: string)
    ensures (forall x :: AgreeOnLength(fm, s, x)) <==> IsBmp(s)
  {
    CodeUnitsBounds(s);
    if !IsBmp(s) {
      assert !AgreeOnLength(fm, s, CodeUnits(s) as real);
    }
  }
}
