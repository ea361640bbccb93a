/** Where the classifier errs on neither side: on each of these axes, "not breaking" is the same as "accepts no less". */
module DiffExactness {
  import opened Values
  import opened Schema
  import opened Diff
  import opened DiffSoundness

  // ---- Bounds ----

  predicate IsFloor(name: RefinementName) {
    name.MinLength? || name.Min? || name.MinItems? || name.Gt?
  }

  predicate IsCeiling(name: RefinementName) {
    name.MaxLength? || name.Max? || name.MaxItems? || name.Lt?
  }

  predicate BoundsCount(name: RefinementName) {
    name.MinLength? || name.MaxLength? || name.MinItems? || name.MaxItems?
  }

  /** A bound that orders: with a number, and a whole one where it counts. */
  predicate IsBound(r: Refinement) {
    (IsFloor(r.name) || IsCeiling(r.name)) && r.params.Bound? && (BoundsCount(r.name) ==> IsCount(r.params.value))
  }

  /** Values at every count and every number, to tell bounds apart; arrays are filled with `item`. */
  function Sample(name: RefinementName, x: real, item: Value): Value
    requires BoundsCount(name) ==> IsCount(x)
  {
    match name
    case MinLength | MaxLength => Str(seq(x.Floor, _ => 'a'))
    case MinItems | MaxItems => Arr(seq(x.Floor, _ => item))
    case _ => Num(x)
  }

  lemma SampleHolds(fm: Formats, r: Refinement, x: real, item: Value)
    requires IsBound(r) && (BoundsCount(r.name) ==> IsCount(x))
    ensures Holds(fm, r, Sample(r.name, x, item)) <==>
            match r.name
            case Gt => x > r.params.value
            case Lt => x < r.params.value
            case MinLength | Min | MinItems => x >= r.params.value
            case _ => x <= r.params.value
  {
    if r.name.MinLength? || r.name.MaxLength? {
      CodeUnitsBounds(Sample(r.name, x, item).text);
    }
  }

  /** Between two bounds, or at the old one. */
  function Between(b: Refinement, a: Refinement): real
    requires IsBound(b) && IsBound(a)
  {
    if b.name.Gt? || b.name.Lt? then (b.params.value + a.params.value) / 2.0 else b.params.value
  }

  /** A bound that got tighter shows. */
  lemma TighterBoundShows(fm: Formats, b: Refinement, a: Refinement, item: Value)
    requires IsBound(b) && IsBound(a) && a.name == b.name && ParamSeverity(b, a).Breaking?
    ensures var v := Sample(b.name, Between(b, a), item); Holds(fm, b, v) && !Holds(fm, a, v)
  {
    SampleHolds(fm, b, Between(b, a), item);
    SampleHolds(fm, a, Between(b, a), item);
  }

  /** The node's values are what the bound bounds; `item` is an element to fill arrays with. */
  predicate Fits(fm: Formats, name: RefinementName, kind: Kind, item: Value) {
    match name
    case MinLength | MaxLength => kind.StringKind?
    case Min | Max | Gt | Lt => kind.NumberKind?
    case MinItems | MaxItems => kind.ArrayOf? && Accepts(fm, kind.element, item)
    case _ => false
  }

  lemma SampleFits(fm: Formats, name: RefinementName, kind: Kind, x: real, item: Value)
    requires Fits(fm, name, kind, item) && (BoundsCount(name) ==> IsCount(x))
    ensures AcceptsBase(fm, kind, Sample(name, x, item))
  {
  }

  lemma ByModifiersOrBody(fm: Formats, n: Node, v: Value)
    ensures var w := Filled(n.mods, v);
            Accepts(fm, n, v) <==>
              (w.Undefined? && n.mods.optional) || (w.Null? && n.mods.nullable) || AcceptsBody(fm, n, w)
  {
    assert Accepts(fm, n, v) == AcceptsFilled(fm, n, Filled(n.mods, v));
  }

  /** Where no modifier lets it in, a value is accepted by the body. */
  lemma BodyDecides(fm: Formats, n: Node, v: Value)
    requires !v.Undefined? && !v.Null?
    ensures Accepts(fm, n, v) <==> AcceptsBody(fm, n, v)
  {
    assert Filled(n.mods, v) == v;
    assert AcceptsFilled(fm, n, v) == AcceptsBody(fm, n, v);
  }

  /** A moved bound that is not called breaking lets through what the old one did; and one that is called breaking rejects
      some of it, where counts are bounded by whole numbers. */
  lemma BoundSeverityIsExact(fm: Formats, b: Refinement, a: Refinement)
    requires a.name == b.name
    ensures ParamSeverity(b, a).Additive? ==> forall v | Holds(fm, b, v) :: Holds(fm, a, v)
    ensures IsBound(b) && IsBound(a) ==>
              (ParamSeverity(b, a).Additive? <==> forall v | Holds(fm, b, v) :: Holds(fm, a, v))
  {
    if IsBound(b) && IsBound(a) && ParamSeverity(b, a).Breaking? {
      TighterBoundShows(fm, b, a, Null);
    }
  }

  // ---- Absence ----

  lemma WithoutDefault(fm: Formats, n: Node, v: Value)
    requires n.mods.default.None?
    ensures Accepts(fm, n, v) <==> (v.Undefined? && n.mods.optional) || (v.Null? && n.mods.nullable) || AcceptsBody(fm, n, v)
  {
    assert AcceptsFilled(fm, n, v) == Accepts(fm, n, v);
  }

  /** Between modifiers without defaults, a change of absence is called breaking exactly when undefined or null was let in
      and no longer is. */
  lemma AbsenceSeverityIsExact(fm: Formats, n: Node, m: Modifiers, path: seq<string>)
    requires n.mods.default.None? && m.default.None? && !AcceptsBase(fm, n.kind, Null)
    ensures Within(DiffAbsence(n.mods, m, path), Additive) <==> Covers(fm, n, n.(mods := m))
  {
    var a := n.(mods := m);
    if Within(DiffAbsence(n.mods, m, path), Additive) {
      forall v | Accepts(fm, n, v) ensures Accepts(fm, a, v) {
        WithoutDefault(fm, n, v);
        WithoutDefault(fm, a, v);
        assert AcceptsBody(fm, a, v) == AcceptsBody(fm, n, v);
      }
    } else {
      var lost := if n.mods.optional && !m.optional then Undefined else Null;
      WithoutDefault(fm, n, lost);
      WithoutDefault(fm, a, lost);
      assert Accepts(fm, n, lost) && !Accepts(fm, a, lost);
    }
  }

  /** With a default the classifier is cautious: giving an optional field one its node accepts is called breaking, and
      rejects nothing. */
  lemma DefaultOnOptionalIsOvercautious(fm: Formats, n: Node, x: Json, path: seq<string>)
    requires n.mods.optional && n.mods.default.None? && Accepts(fm, n, x)
    ensures !Within(DiffAbsence(n.mods, n.mods.(default := Some(x)), path), Additive)
    ensures Covers(fm, n, n.(mods := n.mods.(default := Some(x))))
  {
    var a := n.(mods := n.mods.(default := Some(x)));
    assert DiffAbsence(n.mods, a.mods, path)[0].severity.Breaking?;
    forall v | Accepts(fm, n, v) ensures Accepts(fm, a, v) {
      assert AcceptsFilled(fm, a, Filled(a.mods, v)) == AcceptsFilled(fm, n, Filled(a.mods, v));
    }
  }

  // ---- Enums ----

  lemma {:induction false} RemovalsAreReported(b: seq<Json>, a: seq<Json>, path: seq<string>)
    ensures EnumRemoved(b, a, path) == [] <==> forall x | x in b :: x in a
    ensures forall c | c in EnumRemoved(b, a, path) :: c.severity.Breaking?
  {
    if b != [] {
      RemovalsAreReported(Front(b), a, path);
      assert b == Front(b) + [LastOf(b)] && LastOf(b) in b;
    }
  }

  lemma {:induction false} AdditionsAreReported(b: seq<Json>, a: seq<Json>, path: seq<string>)
    ensures EnumAdded(b, a, path) == [] <==> forall x | x in a :: x in b
    ensures forall c | c in EnumAdded(b, a, path) :: c.severity.Additive?
  {
    if a != [] {
      AdditionsAreReported(b, Front(a), path);
      assert a == Front(a) + [LastOf(a)] && LastOf(a) in a;
    }
  }

  /** A change of enum values is called breaking exactly when a value was lost, and is no change exactly when none was lost
      or gained. */
  lemma EnumSeverityIsExact(fm: Formats, b: seq<Json>, a: seq<Json>, path: seq<string>)
    requires (forall x | x in b :: IsPrimitive(x)) && forall x | x in a :: IsPrimitive(x)
    ensures Within(EnumAdded(b, a, path) + EnumRemoved(b, a, path), Additive) <==>
            forall v | AcceptsBase(fm, Enum(b), v) :: AcceptsBase(fm, Enum(a), v)
    ensures EnumAdded(b, a, path) + EnumRemoved(b, a, path) == [] <==>
            forall v :: AcceptsBase(fm, Enum(b), v) <==> AcceptsBase(fm, Enum(a), v)
  {
    RemovalsAreReported(b, a, path);
    AdditionsAreReported(b, a, path);
    SameMembers(fm, b, a);
    SameMembers(fm, a, b);
    if EnumRemoved(b, a, path) != [] {
      assert EnumRemoved(b, a, path)[0] in EnumAdded(b, a, path) + EnumRemoved(b, a, path);
    }
  }

  lemma SameMembers(fm: Formats, b: seq<Json>, a: seq<Json>)
    requires forall x | x in b :: IsPrimitive(x)
    ensures (forall x | x in b :: x in a) <==> forall v | AcceptsBase(fm, Enum(b), v) :: AcceptsBase(fm, Enum(a), v)
  {
    if forall x | x in b :: x in a {
      forall v | AcceptsBase(fm, Enum(b), v) ensures AcceptsBase(fm, Enum(a), v) {
        var i :| 0 <= i < |b| && b[i] == v;
        assert b[i] in a;
      }
    } else {
      var x :| x in b && x !in a;
      assert AcceptsBase(fm, Enum(b), x) && !AcceptsBase(fm, Enum(a), x);
    }
  }

  // ---- Unknown keys and new fields ----

  /** A key longer than all of `keys` is not among them. */
  lemma FreshKey(keys: set<string>) returns (k: string)
    ensures k !in keys
  {
    var n := LongerThanAll(keys);
    k := seq(n, _ => 'a');
  }

  lemma {:induction false} LongerThanAll(keys: set<string>) returns (n: nat)
    ensures forall k | k in keys :: |k| < n
    decreases |keys|
  {
    if keys == {} {
      n := 0;
    } else {
      var k :| k in keys;
      var m := LongerThanAll(keys - {k});
      n := if |k| < m then m else |k| + 1;
    }
  }

  /** Where some object is accepted, a change of policy is called breaking exactly when it rejects one. */
  lemma UnknownKeysSeverityIsExact(fm: Formats, b: Kind, u: UnknownKeys, o: map<string, Value>, path: seq<string>)
    requires b.ObjectOf? && AcceptsBase(fm, b, Obj(o))
    ensures Within(DiffUnknownKeys(b.unknownKeys, u, path), Additive) <==>
            forall v | AcceptsBase(fm, b, v) :: AcceptsBase(fm, b.(unknownKeys := u), v)
  {
    var k := FreshKey(b.fields.Keys);
    var p := o[k := Null];
    if u.Strict? && !b.unknownKeys.Strict? {
      assert forall f | f in b.fields :: Lookup(p, f) == Lookup(o, f);
      assert AcceptsBase(fm, b, Obj(p)) && k in p;
      assert !AcceptsBase(fm, b.(unknownKeys := u), Obj(p));
      assert DiffUnknownKeys(b.unknownKeys, u, path)[0].severity.Breaking?;
    }
  }

  /** A new field is called breaking when it may not be absent; then a strict object's successor rejects everything the
      object accepted. */
  lemma RequiredAdditionRejectsAll(fm: Formats, b: Kind, a: Kind, key: string, v: Value)
    requires b.ObjectOf? && a.ObjectOf? && b.unknownKeys.Strict? && key in a.fields && key !in b.fields
    requires NewFieldSeverity(a.fields[key].mods).Breaking? && AcceptsBase(fm, b, v)
    ensures !AcceptsBase(fm, a, v)
  {
    assert Lookup(v.props, key).Undefined?;
    assert !AcceptsBase(fm, a.fields[key].kind, Undefined);
    assert !Accepts(fm, a.fields[key], Undefined);
  }
}
