/** Where the classifier's promise stops: unchanged schemas, shadowed refinements, and concrete failures. */
module DiffLimits {
  import opened Values
  import opened Schema
  import opened Diff
  import opened DiffSoundness
  import opened DiffExactness

  // ---- A schema against itself ----

  /** Lists that agree on the last refinement of every name differ at most by order. */
  lemma RefinementsAgree(b: seq<Refinement>, a: seq<Refinement>, path: seq<string>)
    requires forall name :: LastNamed(b, name) == LastNamed(a, name)
    ensures Within(DiffRefinements(b, a, path), Cosmetic)
    ensures b == a || multiset(NameList(b)) != multiset(NameList(a)) ==> DiffRefinements(b, a, path) == []
  {
    NamesAreNamed(b);
    NamesAreNamed(a);
    QuietLoops(Names(b), b, a, path);
    QuietLoops(Names(a), b, a, path);
    OnlyReordered(b, a, path);
  }

  lemma OnlyReordered(b: seq<Refinement>, a: seq<Refinement>, path: seq<string>)
    requires Loosened(Names(b), a, path) == [] && Tightened(Names(a), b, path) == [] && Reparametrised(Names(b), b, a, path) == []
    ensures Within(DiffRefinements(b, a, path), Cosmetic)
    ensures b == a || multiset(NameList(b)) != multiset(NameList(a)) ==> DiffRefinements(b, a, path) == []
  {
  }

  lemma NamesAreNamed(refs: seq<Refinement>)
    ensures forall name | name in Names(refs) :: LastNamed(refs, name).Some?
  {
    forall name | name in Names(refs) ensures LastNamed(refs, name).Some? {
      NamesAreAll(refs, name);
    }
  }

  lemma {:induction false} QuietLoops(names: seq<RefinementName>, b: seq<Refinement>, a: seq<Refinement>, path: seq<string>)
    requires forall name | name in names :: LastNamed(b, name).Some? && LastNamed(b, name) == LastNamed(a, name)
    ensures Loosened(names, a, path) == [] && Tightened(names, b, path) == [] && Reparametrised(names, b, a, path) == []
  {
    if names != [] {
      QuietLoops(Front(names), b, a, path);
      assert LastOf(names) in names;
    }
  }

  lemma {:induction false} QuietEnum(b: seq<Json>, a: seq<Json>, path: seq<string>)
    ensures (forall v | v in a :: v in b) ==> EnumAdded(b, a, path) == []
    ensures (forall v | v in b :: v in a) ==> EnumRemoved(b, a, path) == []
    decreases |b| + |a|
  {
    if a != [] {
      QuietEnum(b, Front(a), path);
      assert LastOf(a) in a && forall v | v in Front(a) :: v in a;
    }
    if b != [] {
      QuietEnum(Front(b), a, path);
      assert LastOf(b) in b && forall v | v in Front(b) :: v in b;
    }
  }

  lemma {:induction false} QuietKeys(b: Kind, a: Kind, keys: seq<string>, path: seq<string>)
    requires WellKeyedFields(b) && WellKeyedFields(a)
    ensures (forall k | k in keys :: DiffKey(b, a, k, path) == []) ==> DiffKeys(b, a, keys, path) == []
    ensures (forall k | k in keys :: Within(DiffKey(b, a, k, path), Cosmetic)) ==>
              Within(DiffKeys(b, a, keys, path), Cosmetic)
  {
    if keys != [] {
      QuietKeys(b, a, Front(keys), path);
      assert LastOf(keys) in keys && forall k | k in Front(keys) :: k in keys;
    }
  }

  /** A schema compared with itself has no changes, so planning a version onto itself never asks for a chain. */
  lemma {:induction false} WalkSelf(n: Node, path: seq<string>)
    requires WellKeyed(n)
    ensures Walk(n, n, path) == []
    decreases n
  {
    RefinementsAgree(n.refs, n.refs, path);
    match n.kind {
      case ArrayOf(e) => WalkSelf(e, path + ["[]"]);
      case ObjectOf(fields, order, _) =>
        forall k | k in AllKeys(order, order) ensures DiffKey(n.kind, n.kind, k, path) == [] {
          AllKeysAreAll(order, order, k);
          WalkSelf(fields[k], path + [k]);
        }
        QuietKeys(n.kind, n.kind, AllKeys(order, order), path);
      case Enum(values) => QuietEnum(values, values, path);
      case _ =>
    }
  }

  // ---- Shadowed refinements: the exact limit ----

  lemma {:induction false} LastWinsWellKeyed(n: Node)
    requires WellKeyed(n)
    ensures WellKeyed(LastWinsNode(n))
  {
    match n.kind {
      case ArrayOf(e) => LastWinsWellKeyed(e);
      case ObjectOf(fields, _, _) =>
        forall k | k in fields ensures WellKeyed(LastWinsNode(fields[k])) {
          LastWinsWellKeyed(fields[k]);
        }
      case _ =>
    }
  }

  lemma LastNamedOfLastWins(refs: seq<Refinement>, name: RefinementName)
    ensures LastNamed(LastWins(refs), name) == LastNamed(refs, name)
  {
    var kept := LastWins(refs);
    LastNamedIsLast(kept, name);
    LastNamedIsLast(refs, name);
    if LastNamed(kept, name).Some? {
      LastWinsMembers(refs, LastNamed(kept, name).value);
    }
    if LastNamed(refs, name).Some? {
      LastWinsMembers(refs, LastNamed(refs, name).value);
    }
  }

  /** Dropping shadowed refinements adds no field. */
  lemma {:induction false} ShadowsAddNoField(fm: Formats, n: Node)
    ensures AddedFieldsSafe(fm, LastWinsNode(n), n)
    decreases n
  {
    match n.kind {
      case ArrayOf(e) => ShadowsAddNoField(fm, e);
      case ObjectOf(fields, _, _) =>
        forall k | k in fields ensures AddedFieldsSafe(fm, LastWinsNode(n).kind.fields[k], fields[k]) {
          ShadowsAddNoField(fm, fields[k]);
        }
      case _ =>
    }
  }

  lemma LastNamedAgree(refs: seq<Refinement>, path: seq<string>)
    ensures Within(DiffRefinements(LastWins(refs), refs, path), Cosmetic)
  {
    forall name ensures LastNamed(LastWins(refs), name) == LastNamed(refs, name) {
      LastNamedOfLastWins(refs, name);
    }
    RefinementsAgree(LastWins(refs), refs, path);
  }

  /** The classifier cannot tell a node from the one with its shadowed refinements dropped. */
  lemma {:induction false} ShadowedIsInvisible(n: Node, path: seq<string>)
    requires WellKeyed(n) && WellKeyed(LastWinsNode(n))
    ensures Within(Walk(LastWinsNode(n), n, path), Cosmetic)
    decreases n
  {
    var l := LastWinsNode(n);
    LastNamedAgree(n.refs, path);
    match n.kind {
      case ArrayOf(e) => ShadowedIsInvisible(e, path + ["[]"]);
      case ObjectOf(fields, order, _) =>
        forall k | k in AllKeys(order, order) ensures Within(DiffKey(l.kind, n.kind, k, path), Cosmetic) {
          AllKeysAreAll(order, order, k);
          ShadowedIsInvisible(fields[k], path + [k]);
        }
        QuietKeys(l.kind, n.kind, AllKeys(order, order), path);
      case Enum(values) => QuietEnum(values, values, path);
      case _ =>
    }
  }

  /** The diff is not breaking and every field it adds is safe. */
  ghost predicate PassesGate(fm: Formats, b: Node, a: Node)
    requires WellKeyed(a)
  {
    WellKeyed(b) && Within(Walk(b, a, []), Additive) && AddedFieldsSafe(fm, b, a)
  }

  /** `a` is safe against every earlier schema exactly when dropping its shadowed refinements changes nothing. */
  lemma ShadowingIsTheOnlyRefinementGap(fm: Formats, a: Node)
    requires WellKeyed(a)
    ensures (forall b | PassesGate(fm, b, a) :: Covers(fm, b, a)) <==> Covers(fm, LastWinsNode(a), a)
  {
    if Covers(fm, LastWinsNode(a), a) {
      forall b | PassesGate(fm, b, a) ensures Covers(fm, b, a) {
        GatedCoversLastWins(fm, b, a);
      }
    }
    LastWinsPassesGate(fm, a);
  }

  lemma GatedCoversLastWins(fm: Formats, b: Node, a: Node)
    requires WellKeyed(a) && PassesGate(fm, b, a)
    ensures Covers(fm, b, LastWinsNode(a))
  {
    forall v | Accepts(fm, b, v) ensures Accepts(fm, LastWinsNode(a), v) {
      LastWinsAcceptsMore(fm, b, v);
      NonBreakingLoosens(fm, b, a, [], v);
    }
  }

  lemma LastWinsPassesGate(fm: Formats, a: Node)
    requires WellKeyed(a)
    ensures PassesGate(fm, LastWinsNode(a), a)
  {
    LastWinsWellKeyed(a);
    ShadowedIsInvisible(a, []);
    ShadowsAddNoField(fm, a);
  }

  /** Every refinement is the last of its name, or a bound no tighter than it. */
  predicate ShadowsAreLoose(refs: seq<Refinement>) {
    forall r | r in refs :: IsLoose(r, LastNamed(refs, r.name))
  }

  predicate IsLoose(r: Refinement, last: Option<Refinement>) {
    last.Some? ==> r == last.value || ParamSeverity(last.value, r).Additive?
  }

  /** ... at any depth; a caller can read it off the schema. */
  predicate NodeShadowsAreLoose(n: Node) {
    && ShadowsAreLoose(n.refs)
    && match n.kind
       case ArrayOf(e) => NodeShadowsAreLoose(e)
       case ObjectOf(fields, _, _) => forall k | k in fields :: NodeShadowsAreLoose(fields[k])
       case _ => true
  }

  lemma LooseShadowsHold(fm: Formats, refs: seq<Refinement>, v: Value)
    requires ShadowsAreLoose(refs) && AllHold(fm, LastWins(refs), v)
    ensures AllHold(fm, refs, v)
  {
    forall r | r in refs ensures Holds(fm, r, v) {
      LastNamedIsLast(refs, r.name);
      var last := LastNamed(refs, r.name).value;
      LastWinsMembers(refs, last);
      assert IsLoose(r, Some(last));
      BoundSeverityIsExact(fm, last, r);
    }
  }

  /** Loose shadows may be dropped. */
  lemma {:induction false} LooseShadowsChangeNothing(fm: Formats, n: Node, v: Value)
    requires NodeShadowsAreLoose(n)
    ensures Accepts(fm, LastWinsNode(n), v) ==> Accepts(fm, n, v)
    decreases n
  {
    var l, w := LastWinsNode(n), Filled(n.mods, v);
    ByModifiersOrBody(fm, l, v);
    ByModifiersOrBody(fm, n, v);
    if AcceptsBody(fm, l, w) {
      LooseShadowsHold(fm, n.refs, w);
      match n.kind {
        case ArrayOf(e) =>
          forall x | x in w.items ensures Accepts(fm, e, x) {
            LooseShadowsChangeNothing(fm, e, x);
          }
        case ObjectOf(fields, _, _) =>
          forall k | k in fields ensures Accepts(fm, fields[k], Lookup(w.props, k)) {
            LooseShadowsChangeNothing(fm, fields[k], Lookup(w.props, k));
          }
        case _ =>
      }
      assert AcceptsBase(fm, n.kind, w);
    }
  }

  /** The gate is sound for every schema whose shadowed refinements are loose, duplicate names and all. */
  lemma LooseShadowsAreSafe(fm: Formats, b: Node, a: Node)
    requires WellKeyed(a) && NodeShadowsAreLoose(a) && PassesGate(fm, b, a)
    ensures Covers(fm, b, a)
  {
    GatedCoversLastWins(fm, b, a);
    forall v | Accepts(fm, b, v) ensures Accepts(fm, a, v) {
      LooseShadowsChangeNothing(fm, a, v);
    }
  }

  /** For a schema with bounds of one name the condition is exact: the gate is sound against every earlier schema if and only
      if no shadowed bound is tighter than the last. */
  lemma GateIsSoundIffShadowsLoose(fm: Formats, a: Node, name: RefinementName, item: Value)
    requires WellKeyed(a) && NodeShadowsAreLoose(a.(refs := [])) && forall r | r in a.refs :: IsBound(r) && r.name == name
    requires a.refs != [] ==> Fits(fm, name, a.kind, item)
    ensures (forall b | PassesGate(fm, b, a) :: Covers(fm, b, a)) <==> ShadowsAreLoose(a.refs)
  {
    if ShadowsAreLoose(a.refs) {
      assert NodeShadowsAreLoose(a);
      forall b | PassesGate(fm, b, a) ensures Covers(fm, b, a) {
        LooseShadowsAreSafe(fm, b, a);
      }
    } else {
      var r :| r in a.refs && !IsLoose(r, LastNamed(a.refs, r.name));
      TightShadowShows(fm, a, r, item);
      ShadowingIsTheOnlyRefinementGap(fm, a);
    }
  }

  lemma TightShadowShows(fm: Formats, a: Node, r: Refinement, item: Value)
    requires r in a.refs && (forall q | q in a.refs :: IsBound(q) && q.name == r.name) && Fits(fm, r.name, a.kind, item)
    requires !IsLoose(r, LastNamed(a.refs, r.name))
    ensures !Covers(fm, LastWinsNode(a), a)
  {
    var last, l := LastNamed(a.refs, r.name).value, LastWinsNode(a);
    LastNamedIsLast(a.refs, r.name);
    var v := Sample(r.name, Between(last, r), item);
    TighterBoundShows(fm, last, r, item);
    if a.kind.ArrayOf? {
      LastWinsAcceptsMore(fm, a.kind.element, item);
    }
    SampleFits(fm, r.name, l.kind, Between(last, r), item);
    forall q | q in l.refs ensures q == last {
      LastWinsMembers(a.refs, q);
      LastNamedIsLast(a.refs, q.name);
    }
    BodyDecides(fm, l, v);
    BodyDecides(fm, a, v);
    assert Accepts(fm, l, v) && !Accepts(fm, a, v);
  }

  // ---- Concrete failures ----

  const PLAIN := Modifiers(false, false, None)
  const UNTAGGED := Metadata(None, None, None, None)

  function Leaf(kind: Kind, mods: Modifiers, refs: seq<Refinement>): Node {
    Node(kind, mods, refs, UNTAGGED)
  }

  /** The diff of `b` and `a` is `changes`, and `v` was accepted but no longer is. */
  ghost predicate Rejects(fm: Formats, b: Node, a: Node, changes: seq<Change>, v: Value) {
    WellKeyed(b) && WellKeyed(a) && Walk(b, a, []) == changes && Accepts(fm, b, v) && !Accepts(fm, a, v)
  }

  const OPTIONAL_TEXT := Leaf(StringKind, Modifiers(true, false, None), [])
  const OPEN_EMPTY := Leaf(ObjectOf(map[], [], Passthrough), PLAIN, [])
  const OPEN_ONE := Leaf(ObjectOf(map["x" := OPTIONAL_TEXT], ["x"], Passthrough), PLAIN, [])

  lemma OneKey(b: Kind, a: Kind, key: string, path: seq<string>)
    requires WellKeyedFields(b) && WellKeyedFields(a)
    ensures AllKeys([], [key]) == [key] && DiffKeys(b, a, [key], path) == DiffKey(b, a, key, path)
  {
    assert Front([key]) == [] && LastOf([key]) == key;
  }

  lemma KeysOfAddition()
    ensures WellKeyed(OPEN_EMPTY) && WellKeyed(OPEN_ONE)
    ensures DiffKeys(OPEN_EMPTY.kind, OPEN_ONE.kind, AllKeys([], ["x"]), []) == [Change(Additive, ["x"], FieldAdded)]
  {
    OneKey(OPEN_EMPTY.kind, OPEN_ONE.kind, "x", []);
    assert [] + ["x"] == ["x"];
  }

  lemma WalkOfAddition()
    ensures WellKeyed(OPEN_EMPTY) && WellKeyed(OPEN_ONE)
    ensures Walk(OPEN_EMPTY, OPEN_ONE, []) == [Change(Additive, ["x"], FieldAdded)]
  {
    KeysOfAddition();
    assert DiffRefinements([], [], []) == [] by {
      RefinementsAgree([], [], []);
    }
  }

  /** Adding an optional field to a `passthrough` object is called additive, yet an accepted value is now rejected. */
  lemma AdditiveCanShrink(fm: Formats)
    ensures exists b, a, v :: Rejects(fm, b, a, [Change(Additive, ["x"], FieldAdded)], v)
  {
    var v := Obj(map["x" := Bool(true)]);
    WalkOfAddition();
    assert !Accepts(fm, OPTIONAL_TEXT, Lookup(v.props, "x"));
    assert "x" in OPEN_ONE.kind.fields && !AcceptsBase(fm, OPEN_ONE.kind, v);
    assert AcceptsBase(fm, OPEN_EMPTY.kind, v);
    assert Rejects(fm, OPEN_EMPTY, OPEN_ONE, [Change(Additive, ["x"], FieldAdded)], v);
  }

  const MIN_TWO := Refinement(Min, Bound(2.0))
  const MIN_FIVE := Refinement(Min, Bound(5.0))

  lemma DuplicateIsInvisible()
    ensures DiffRefinements([MIN_TWO], [MIN_FIVE, MIN_TWO], []) == []
  {
    var b, a := [MIN_TWO], [MIN_FIVE, MIN_TWO];
    forall name ensures LastNamed(b, name) == LastNamed(a, name) {
      LastNamedTail(a, name);
      assert a[1..] == b;
    }
    assert multiset(NameList(b))[Min] == 1 && multiset(NameList(a))[Min] == 2 by {
      assert NameList(b) == [Min] && NameList(a) == [Min, Min];
    }
    RefinementsAgree(b, a, []);
  }

  lemma ThreeIsBetween(fm: Formats)
    ensures AllHold(fm, [MIN_TWO], Num(3.0)) && !AllHold(fm, [MIN_FIVE, MIN_TWO], Num(3.0))
  {
    var refs := [MIN_FIVE, MIN_TWO];
    assert refs[0] == MIN_FIVE && MIN_FIVE in refs && !Holds(fm, MIN_FIVE, Num(3.0));
  }

  /** The classifier reports no change between `[min 5, min 2]` and `[min 2]`, which accept different numbers. */
  lemma DuplicateNamesHideChanges(fm: Formats)
    ensures exists b, a, v :: Rejects(fm, b, a, [], v)
  {
    var b, a := Leaf(NumberKind, PLAIN, [MIN_TWO]), Leaf(NumberKind, PLAIN, [MIN_FIVE, MIN_TWO]);
    DuplicateIsInvisible();
    ThreeIsBetween(fm);
    BodyDecides(fm, b, Num(3.0));
    BodyDecides(fm, a, Num(3.0));
    assert Rejects(fm, b, a, [], Num(3.0));
  }
}
