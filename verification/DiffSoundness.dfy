/** The classifier's promise: severity is about which inputs a schema accepts. */
module DiffSoundness {
  import opened Values
  import opened Schema
  import opened Diff

  // ---- The node the classifier sees: of refinements with one name, the last ----

  function LastWins(refs: seq<Refinement>): seq<Refinement> {
    if refs == [] then []
    else if exists r | r in refs[1..] :: r.name == refs[0].name then LastWins(refs[1..])
    else [refs[0]] + LastWins(refs[1..])
  }

  function LastWinsNode(n: Node): Node {
    var kind := match n.kind
      case ArrayOf(e) => ArrayOf(LastWinsNode(e))
      case ObjectOf(fields, order, u) => ObjectOf(map k | k in fields :: LastWinsNode(fields[k]), order, u)
      case k => k;
    n.(kind := kind, refs := LastWins(n.refs))
  }

  /** No refinement name is used twice, at any depth. */
  predicate DistinctRefinements(n: Node) {
    && Distinct(NameList(n.refs))
    && match n.kind
       case ArrayOf(e) => DistinctRefinements(e)
       case ObjectOf(fields, _, _) => forall k | k in fields :: DistinctRefinements(fields[k])
       case _ => true
  }

  lemma {:induction false} LastWinsOfDistinct(refs: seq<Refinement>)
    requires Distinct(NameList(refs))
    ensures LastWins(refs) == refs
  {
    if refs != [] {
      assert forall i | 0 <= i < |refs| :: NameList(refs)[i] == refs[i].name;
      LastWinsOfDistinct(refs[1..]);
    }
  }

  lemma {:induction false} LastWinsNodeOfDistinct(n: Node)
    requires DistinctRefinements(n)
    ensures LastWinsNode(n) == n
  {
    LastWinsOfDistinct(n.refs);
    match n.kind {
      case ArrayOf(e) => LastWinsNodeOfDistinct(e);
      case ObjectOf(fields, _, _) =>
        forall k | k in fields ensures LastWinsNode(fields[k]) == fields[k] {
          LastWinsNodeOfDistinct(fields[k]);
        }
        assert (map k | k in fields :: LastWinsNode(fields[k])) == fields;
      case _ =>
    }
  }

  lemma {:induction false} LastNamedIsLast(refs: seq<Refinement>, name: RefinementName)
    ensures match LastNamed(refs, name)
      case None => forall r | r in refs :: r.name != name
      case Some(r) => exists i :: 0 <= i < |refs| && refs[i] == r && r.name == name
                                  && forall j | i < j < |refs| :: refs[j].name != name
  {
    if refs != [] {
      LastNamedIsLast(Front(refs), name);
      if LastOf(refs).name != name && LastNamed(refs, name).Some? {
        var r := LastNamed(refs, name).value;
        var i :| 0 <= i < |Front(refs)| && Front(refs)[i] == r && r.name == name
                 && forall j | i < j < |Front(refs)| :: Front(refs)[j].name != name;
        assert refs[i] == r && forall j | i < j < |refs| :: refs[j].name != name;
      }
    }
  }

  lemma {:induction false} LastWinsMembers(refs: seq<Refinement>, r: Refinement)
    ensures r in LastWins(refs) <==> LastNamed(refs, r.name) == Some(r)
  {
    if refs != [] {
      LastWinsMembers(refs[1..], r);
      LastNamedTail(refs, r.name);
      LastNamedIsLast(refs[1..], r.name);
    }
  }

  lemma {:induction false} LastNamedTail(refs: seq<Refinement>, name: RefinementName)
    requires refs != []
    ensures LastNamed(refs, name) ==
      if exists r | r in refs[1..] :: r.name == name then LastNamed(refs[1..], name)
      else if refs[0].name == name then Some(refs[0])
      else None
  {
    if |refs| > 1 {
      LastNamedTail(Front(refs), name);
      assert Front(refs)[1..] == Front(refs[1..]);
      assert refs[1..] == Front(refs)[1..] + [LastOf(refs)];
      assert forall r :: r in refs[1..] <==> r in Front(refs)[1..] || r == LastOf(refs);
    }
  }

  /** Dropping shadowed refinements can only accept more. */
  lemma {:induction false} LastWinsAcceptsMore(fm: Formats, n: Node, v: Value)
    requires Accepts(fm, n, v)
    ensures Accepts(fm, LastWinsNode(n), v)
    decreases n
  {
    var w := Filled(n.mods, v);
    if AcceptsBase(fm, n.kind, w) && AllHold(fm, n.refs, w) {
      forall r | r in LastWins(n.refs) ensures r in n.refs {
        LastWinsMembers(n.refs, r);
        LastNamedIsLast(n.refs, r.name);
      }
      match n.kind {
        case ArrayOf(e) =>
          forall x | x in w.items ensures Accepts(fm, LastWinsNode(e), x) {
            LastWinsAcceptsMore(fm, e, x);
          }
        case ObjectOf(fields, _, _) =>
          forall k | k in fields ensures Accepts(fm, LastWinsNode(fields[k]), Lookup(w.props, k)) {
            LastWinsAcceptsMore(fm, fields[k], Lookup(w.props, k));
          }
        case _ =>
      }
      assert AcceptsBase(fm, LastWinsNode(n).kind, w);
    }
  }

  // ---- What a bound on severities says about each axis ----

  lemma {:induction false} RefinementLoops(names: seq<RefinementName>, name: RefinementName,
                                           b: seq<Refinement>, a: seq<Refinement>, path: seq<string>)
    requires name in names
    ensures LastNamed(b, name).None? ==> Change(Breaking, path, RefinementChanged) in Tightened(names, b, path)
    ensures LastNamed(a, name).None? ==> Change(Additive, path, RefinementChanged) in Loosened(names, a, path)
    ensures forall c | c in ParamChange(LastNamed(b, name), LastNamed(a, name), path) :: c in Reparametrised(names, b, a, path)
  {
    if LastOf(names) != name {
      assert name in Front(names);
      RefinementLoops(Front(names), name, b, a, path);
    }
  }

  lemma {:induction false} NamesAreAll(refs: seq<Refinement>, name: RefinementName)
    ensures name in Names(refs) <==> LastNamed(refs, name).Some?
  {
    if refs != [] {
      NamesAreAll(Front(refs), name);
    }
  }

  /** Without a breaking change, a name in use afterwards was in use before, with parameters no tighter. */
  lemma RefinementAxis(b: seq<Refinement>, a: seq<Refinement>, path: seq<string>, bound: Severity, name: RefinementName)
    requires Within(DiffRefinements(b, a, path), bound) && !bound.Breaking?
    ensures LastNamed(a, name).Some? ==> LastNamed(b, name).Some?
    ensures bound.Cosmetic? && LastNamed(b, name).Some? ==> LastNamed(a, name).Some?
    ensures Within(ParamChange(LastNamed(b, name), LastNamed(a, name), path), bound)
  {
    var loosened, tightened := Loosened(Names(b), a, path), Tightened(Names(a), b, path);
    var moved := Reparametrised(Names(b), b, a, path);
    assert Within(loosened, bound) && Within(tightened, bound) && Within(moved, bound) by {
      assert Within(loosened + tightened + moved, bound);
      assert forall c | c in loosened || c in tightened || c in moved :: c in loosened + tightened + moved;
    }
    NamesAreAll(b, name);
    NamesAreAll(a, name);
    if name in Names(a) {
      RefinementLoops(Names(a), name, b, a, path);
    }
    if name in Names(b) {
      RefinementLoops(Names(b), name, b, a, path);
    }
  }

  lemma ParamChangeAxis(b: seq<Refinement>, a: seq<Refinement>, path: seq<string>, bound: Severity, name: RefinementName)
    requires LastNamed(a, name).Some? && LastNamed(b, name).Some?
    requires Within(ParamChange(LastNamed(b, name), LastNamed(a, name), path), bound) && !bound.Breaking?
    ensures LastNamed(a, name).value.name == name == LastNamed(b, name).value.name
    ensures LastNamed(a, name) != LastNamed(b, name) ==>
              bound.Additive? && ParamSeverity(LastNamed(b, name).value, LastNamed(a, name).value) == Additive
  {
    LastNamedIsLast(b, name);
    LastNamedIsLast(a, name);
    var q, r := LastNamed(b, name).value, LastNamed(a, name).value;
    assert q.params != r.params ==>
        Change(ParamSeverity(q, r), path, RefinementChanged) in ParamChange(Some(q), Some(r), path);
  }

  lemma RefinementsLoosen(fm: Formats, b: seq<Refinement>, a: seq<Refinement>, path: seq<string>, v: Value)
    requires Within(DiffRefinements(b, a, path), Additive)
    requires AllHold(fm, LastWins(b), v)
    ensures AllHold(fm, LastWins(a), v)
  {
    forall r | r in LastWins(a) ensures Holds(fm, r, v) {
      LastWinsMembers(a, r);
      RefinementAxis(b, a, path, Additive, r.name);
      ParamChangeAxis(b, a, path, Additive, r.name);
      var q := LastNamed(b, r.name).value;
      LastWinsMembers(b, q);
      assert Holds(fm, q, v);
    }
  }

  lemma RefinementsUnchanged(fm: Formats, b: seq<Refinement>, a: seq<Refinement>, path: seq<string>, v: Value)
    requires Within(DiffRefinements(b, a, path), Cosmetic)
    ensures AllHold(fm, LastWins(b), v) <==> AllHold(fm, LastWins(a), v)
  {
    forall r ensures r in LastWins(b) <==> r in LastWins(a) {
      LastWinsMembers(a, r);
      LastWinsMembers(b, r);
      RefinementAxis(b, a, path, Cosmetic, r.name);
      if LastNamed(b, r.name).Some? {
        ParamChangeAxis(b, a, path, Cosmetic, r.name);
      }
    }
  }

  lemma {:induction false} KeyDiffIsReported(b: Kind, a: Kind, keys: seq<string>, key: string, path: seq<string>)
    requires WellKeyedFields(b) && WellKeyedFields(a)
    requires key in keys
    ensures forall c | c in DiffKey(b, a, key, path) :: c in DiffKeys(b, a, keys, path)
  {
    if LastOf(keys) != key {
      assert key in Front(keys);
      KeyDiffIsReported(b, a, Front(keys), key, path);
    }
  }

  lemma {:induction false} AllKeysAreAll(bs: seq<string>, cs: seq<string>, key: string)
    ensures key in AllKeys(bs, cs) <==> key in bs || key in cs
  {
    if cs != [] {
      AllKeysAreAll(bs, Front(cs), key);
    }
  }

  /** A bound on an object's diff bounds the diff of each of its keys. */
  lemma KeyAxis(b: Node, a: Node, path: seq<string>, bound: Severity, key: string)
    requires WellKeyed(b) && WellKeyed(a) && b.kind.ObjectOf? && a.kind.ObjectOf?
    requires Within(Walk(b, a, path), bound)
    requires key in b.kind.fields || key in a.kind.fields
    ensures Within(DiffKey(b.kind, a.kind, key, path), bound)
  {
    var keys := AllKeys(b.kind.order, a.kind.order);
    AllKeysAreAll(b.kind.order, a.kind.order, key);
    KeyDiffIsReported(b.kind, a.kind, keys, key, path);
    assert forall c | c in DiffKeys(b.kind, a.kind, keys, path) :: c in Walk(b, a, path);
  }

  lemma {:induction false} EnumAxis(b: seq<Json>, a: seq<Json>, path: seq<string>, v: Value)
    ensures v in b && v !in a ==> Change(Breaking, path, EnumValueRemoved) in EnumRemoved(b, a, path)
    decreases |b|
  {
    if b != [] && LastOf(b) != v {
      assert v in b ==> v in Front(b);
      EnumAxis(Front(b), a, path, v);
    }
  }

  lemma {:induction false} EnumAddedAxis(b: seq<Json>, a: seq<Json>, path: seq<string>, v: Value)
    ensures v in a && v !in b ==> Change(Additive, path, EnumValueAdded) in EnumAdded(b, a, path)
    decreases |a|
  {
    if a != [] && LastOf(a) != v {
      assert v in a ==> v in Front(a);
      EnumAddedAxis(b, Front(a), path, v);
    }
  }

  /** The parts of a node's diff, each bounded when the whole is. */
  lemma NodeAxes(b: Node, a: Node, path: seq<string>, bound: Severity)
    requires WellKeyed(b) && WellKeyed(a) && !bound.Breaking?
    requires Within(Walk(b, a, path), bound)
    ensures SameKind(b.kind, a.kind)
    ensures Within(DiffDefault(b.mods, a.mods, path), bound)
    ensures Within(DiffAbsence(b.mods, a.mods, path), bound)
    ensures Within(DiffRefinements(b.refs, a.refs, path), bound)
    ensures b.kind.ArrayOf? ==> Within(Walk(b.kind.element, a.kind.element, path + ["[]"]), bound)
    ensures b.kind.ObjectOf? ==> Within(DiffUnknownKeys(b.kind.unknownKeys, a.kind.unknownKeys, path), bound)
    ensures b.kind.Enum? ==> Within(EnumAdded(b.kind.values, a.kind.values, path), bound)
    ensures b.kind.Enum? ==> Within(EnumRemoved(b.kind.values, a.kind.values, path), bound)
    ensures b.kind.Literal? ==> b.kind.value == a.kind.value
  {
    var all := Walk(b, a, path);
    assert !SameKind(b.kind, a.kind) ==> Change(Breaking, path, TypeChanged) in all;
    assert forall c | c in DiffDefault(b.mods, a.mods, path) :: c in all;
    assert forall c | c in DiffAbsence(b.mods, a.mods, path) :: c in all;
    assert forall c | c in DiffRefinements(b.refs, a.refs, path) :: c in all;
    match b.kind {
      case ArrayOf(e) => assert forall c | c in Walk(e, a.kind.element, path + ["[]"]) :: c in all;
      case ObjectOf(_, _, u) => assert forall c | c in DiffUnknownKeys(u, a.kind.unknownKeys, path) :: c in all;
      case Enum(x) =>
        assert forall c | c in EnumAdded(x, a.kind.values, path) :: c in all;
        assert forall c | c in EnumRemoved(x, a.kind.values, path) :: c in all;
      case Literal(x) =>
        assert x != a.kind.value ==> Change(Breaking, path, LiteralChanged) in all;
      case _ =>
    }
  }

  // ---- Soundness ----

  /** A node's own default is accepted by the node. */
  predicate DefaultAccepted(fm: Formats, n: Node) {
    n.mods.default.Some? ==> AcceptsFilled(fm, n, n.mods.default.value)
  }

  /** Fields are only added to objects that were `strict`, and with defaults that their nodes accept. */
  predicate AddedFieldsSafe(fm: Formats, b: Node, a: Node)
    decreases b
  {
    match b.kind
    case ArrayOf(e) => a.kind.ArrayOf? ==> AddedFieldsSafe(fm, e, a.kind.element)
    case ObjectOf(fields, _, u) =>
      a.kind.ObjectOf? ==>
        && (forall k | k in a.kind.fields && k !in fields :: u.Strict? && DefaultAccepted(fm, a.kind.fields[k]))
        && (forall k | k in fields && k in a.kind.fields :: AddedFieldsSafe(fm, fields[k], a.kind.fields[k]))
    case _ => true
  }

  lemma HeadWithin(changes: seq<Change>, bound: Severity)
    requires Within(changes, bound)
    ensures changes != [] ==> Rank(changes[0].severity) <= Rank(bound)
  {
    if changes != [] {
      assert changes[0] in changes;
    }
  }

  /** A value accepted before is filled in alike after, and an accepted absence or null stays accepted. */
  lemma AbsenceLoosens(fm: Formats, b: Node, a: Node, path: seq<string>, v: Value)
    requires Within(DiffDefault(b.mods, a.mods, path), Additive)
    requires Within(DiffAbsence(b.mods, a.mods, path), Additive)
    requires Accepts(fm, b, v)
    ensures Filled(a.mods, v) == Filled(b.mods, v)
    ensures var w := Filled(b.mods, v);
            (w.Undefined? && b.mods.optional ==> a.mods.optional) && (w.Null? && b.mods.nullable ==> a.mods.nullable)
  {
    HeadWithin(DiffDefault(b.mods, a.mods, path), Additive);
    HeadWithin(DiffAbsence(b.mods, a.mods, path), Additive);
    assert !AcceptsBase(fm, b.kind, Undefined);
  }

  /** A diff without a breaking change never rejects what was accepted, whatever the refinement names. */
  lemma {:induction false} NonBreakingLoosens(fm: Formats, b: Node, a: Node, path: seq<string>, v: Value)
    requires WellKeyed(b) && WellKeyed(a)
    requires Within(Walk(b, a, path), Additive)
    requires AddedFieldsSafe(fm, b, a)
    requires Accepts(fm, LastWinsNode(b), v)
    ensures Accepts(fm, LastWinsNode(a), v)
    decreases b, 2
  {
    var lb, la := LastWinsNode(b), LastWinsNode(a);
    NodeAxes(b, a, path, Additive);
    AbsenceLoosens(fm, lb, la, path, v);
    var w := Filled(b.mods, v);
    if AcceptsBase(fm, lb.kind, w) && AllHold(fm, lb.refs, w) {
      RefinementsLoosen(fm, b.refs, a.refs, path, w);
      BaseLoosens(fm, b, a, path, w);
    }
  }

  lemma {:induction false} BaseLoosens(fm: Formats, b: Node, a: Node, path: seq<string>, w: Value)
    requires WellKeyed(b) && WellKeyed(a)
    requires Within(Walk(b, a, path), Additive)
    requires AddedFieldsSafe(fm, b, a)
    requires AcceptsBase(fm, LastWinsNode(b).kind, w)
    ensures AcceptsBase(fm, LastWinsNode(a).kind, w)
    decreases b, 1
  {
    NodeAxes(b, a, path, Additive);
    match b.kind {
      case ArrayOf(e) =>
        forall x | x in w.items ensures Accepts(fm, LastWinsNode(a.kind.element), x) {
          NonBreakingLoosens(fm, e, a.kind.element, path + ["[]"], x);
        }
      case ObjectOf(_, _, _) =>
        forall k | k in a.kind.fields ensures Accepts(fm, LastWinsNode(a).kind.fields[k], Lookup(w.props, k)) {
          FieldLoosens(fm, b, a, path, w, k);
        }
        StrictnessLoosens(b, a, path);
      case Enum(values) => EnumAxis(values, a.kind.values, path, w);
      case _ =>
    }
  }

  lemma {:induction false} FieldLoosens(fm: Formats, b: Node, a: Node, path: seq<string>, w: Value, k: string)
    requires WellKeyed(b) && WellKeyed(a) && b.kind.ObjectOf? && a.kind.ObjectOf? && k in a.kind.fields
    requires Within(Walk(b, a, path), Additive)
    requires AddedFieldsSafe(fm, b, a)
    requires AcceptsBase(fm, LastWinsNode(b).kind, w)
    ensures Accepts(fm, LastWinsNode(a.kind.fields[k]), Lookup(w.props, k))
    decreases b, 0
  {
    KeyAxis(b, a, path, Additive, k);
    if k in b.kind.fields {
      assert LastWinsNode(b).kind.fields[k] == LastWinsNode(b.kind.fields[k]);
      NonBreakingLoosens(fm, b.kind.fields[k], a.kind.fields[k], path + [k], Lookup(w.props, k));
    } else {
      AddedFieldAcceptsAbsence(fm, b.kind, a.kind, path, k);
      LastWinsAcceptsMore(fm, a.kind.fields[k], Undefined);
    }
  }

  lemma AddedFieldAcceptsAbsence(fm: Formats, b: Kind, a: Kind, path: seq<string>, k: string)
    requires WellKeyedFields(b) && WellKeyedFields(a) && k in a.fields && k !in b.fields
    requires Within(DiffKey(b, a, k, path), Additive)
    ensures Accepts(fm, a.fields[k], Undefined) <==> DefaultAccepted(fm, a.fields[k])
  {
    HeadWithin(DiffKey(b, a, k, path), Additive);
  }

  /** An object that was not strict has not become so, and no declared field has gone. */
  lemma StrictnessLoosens(b: Node, a: Node, path: seq<string>)
    requires WellKeyed(b) && WellKeyed(a) && b.kind.ObjectOf? && a.kind.ObjectOf?
    requires Within(Walk(b, a, path), Additive)
    ensures a.kind.unknownKeys.Strict? ==> b.kind.unknownKeys.Strict?
    ensures forall k | k in b.kind.fields :: k in a.kind.fields
  {
    NodeAxes(b, a, path, Additive);
    HeadWithin(DiffUnknownKeys(b.kind.unknownKeys, a.kind.unknownKeys, path), Additive);
    forall k | k in b.kind.fields ensures k in a.kind.fields {
      KeyAxis(b, a, path, Additive, k);
      HeadWithin(DiffKey(b.kind, a.kind, k, path), Additive);
    }
  }

  // ---- Equivalence ----

  lemma AbsenceUnchanged(fm: Formats, b: Node, a: Node, path: seq<string>, v: Value)
    requires Within(DiffDefault(b.mods, a.mods, path), Cosmetic)
    requires Within(DiffAbsence(b.mods, a.mods, path), Cosmetic)
    ensures Filled(a.mods, v) == Filled(b.mods, v)
    ensures b.mods.nullable == a.mods.nullable
    ensures Filled(b.mods, v).Undefined? ==> b.mods.optional == a.mods.optional
  {
    HeadWithin(DiffDefault(b.mods, a.mods, path), Cosmetic);
    HeadWithin(DiffAbsence(b.mods, a.mods, path), Cosmetic);
  }

  /** A diff with at most cosmetic changes leaves the accepted set as it was; no hypothesis on policies or defaults. */
  lemma {:induction false} CosmeticPreserves(fm: Formats, b: Node, a: Node, path: seq<string>, v: Value)
    requires WellKeyed(b) && WellKeyed(a)
    requires Within(Walk(b, a, path), Cosmetic)
    ensures Accepts(fm, LastWinsNode(b), v) <==> Accepts(fm, LastWinsNode(a), v)
    decreases b, 1
  {
    var lb, la := LastWinsNode(b), LastWinsNode(a);
    NodeAxes(b, a, path, Cosmetic);
    AbsenceUnchanged(fm, lb, la, path, v);
    var w := Filled(b.mods, v);
    RefinementsUnchanged(fm, b.refs, a.refs, path, w);
    match b.kind {
      case ArrayOf(e) =>
        ElementsPreserved(fm, e, a.kind.element, path + ["[]"], w);
      case ObjectOf(_, _, _) =>
        ShapeUnchanged(b, a, path);
        forall k | k in b.kind.fields
          ensures Within(Walk(b.kind.fields[k], a.kind.fields[k], path + [k]), Cosmetic)
        {
          KeyAxis(b, a, path, Cosmetic, k);
        }
        FieldsPreserved(fm, b, a, path, w);
      case Enum(values) =>
        EnumAxis(values, a.kind.values, path, w);
        EnumAddedAxis(values, a.kind.values, path, w);
      case _ =>
    }
    assert AcceptsBase(fm, lb.kind, w) <==> AcceptsBase(fm, la.kind, w);
  }

  lemma {:induction false} ElementsPreserved(fm: Formats, b: Node, a: Node, path: seq<string>, w: Value)
    requires WellKeyed(b) && WellKeyed(a)
    requires Within(Walk(b, a, path), Cosmetic)
    ensures AcceptsBase(fm, ArrayOf(LastWinsNode(b)), w) <==> AcceptsBase(fm, ArrayOf(LastWinsNode(a)), w)
    decreases b, 2
  {
    if w.Arr? {
      forall x | x in w.items ensures Accepts(fm, LastWinsNode(b), x) <==> Accepts(fm, LastWinsNode(a), x) {
        CosmeticPreserves(fm, b, a, path, x);
      }
    }
  }

  lemma {:induction false} FieldsPreserved(fm: Formats, b: Node, a: Node, path: seq<string>, w: Value)
    requires WellKeyedFields(b.kind) && WellKeyedFields(a.kind) && b.kind.fields.Keys == a.kind.fields.Keys
    requires a.kind.unknownKeys.Strict? <==> b.kind.unknownKeys.Strict?
    requires forall k | k in b.kind.fields :: Within(Walk(b.kind.fields[k], a.kind.fields[k], path + [k]), Cosmetic)
    ensures AcceptsBase(fm, LastWinsNode(b).kind, w) <==> AcceptsBase(fm, LastWinsNode(a).kind, w)
    decreases b, 0
  {
    if w.Obj? {
      var bf, af := LastWinsNode(b).kind.fields, LastWinsNode(a).kind.fields;
      forall k | k in bf
        ensures Accepts(fm, bf[k], Lookup(w.props, k)) <==> Accepts(fm, af[k], Lookup(w.props, k))
      {
        CosmeticPreserves(fm, b.kind.fields[k], a.kind.fields[k], path + [k], Lookup(w.props, k));
      }
    }
  }

  lemma ShapeUnchanged(b: Node, a: Node, path: seq<string>)
    requires WellKeyed(b) && WellKeyed(a) && b.kind.ObjectOf? && a.kind.ObjectOf?
    requires Within(Walk(b, a, path), Cosmetic)
    ensures a.kind.unknownKeys.Strict? <==> b.kind.unknownKeys.Strict?
    ensures b.kind.fields.Keys == a.kind.fields.Keys
  {
    NodeAxes(b, a, path, Cosmetic);
    HeadWithin(DiffUnknownKeys(b.kind.unknownKeys, a.kind.unknownKeys, path), Cosmetic);
    forall k ensures k in b.kind.fields <==> k in a.kind.fields {
      if k in b.kind.fields || k in a.kind.fields {
        KeyAxis(b, a, path, Cosmetic, k);
        HeadWithin(DiffKey(b.kind, a.kind, k, path), Cosmetic);
      }
    }
  }

  // ---- The theorems, with the exact hypothesis each needs ----

  /** Every array below `n` accepts some non-empty list, and every object accepts some value. */
  ghost predicate Populated(fm: Formats, n: Node) {
    match n.kind
    case ArrayOf(e) =>
      Populated(fm, e) && exists xs: seq<Value> :: xs != [] && AcceptsBody(fm, n, Arr(xs))
    case ObjectOf(fields, _, _) =>
      (forall k | k in fields :: Populated(fm, fields[k])) && exists o: map<string, Value> :: AcceptsBody(fm, n, Obj(o))
    case _ => true
  }

  predicate AcceptsBody(fm: Formats, n: Node, v: Value) {
    AcceptsBase(fm, n.kind, v) && AllHold(fm, n.refs, v)
  }

  /** A value no node of this kind accepts. */
  function Misfit(kind: Kind): Value {
    if kind.ArrayOf? then Bool(true) else Arr([])
  }

  lemma ArrayWitness(fm: Formats, b: Node, a: Node, xs: seq<Value>, x: Value)
    requires b.kind.ArrayOf? && a.kind.ArrayOf?
    requires xs != [] && AcceptsBody(fm, b, Arr(xs))
    requires Accepts(fm, b.kind.element, x) && !Accepts(fm, a.kind.element, x)
    ensures Accepts(fm, b, Arr(xs[0 := x])) && !Accepts(fm, a, Arr(xs[0 := x]))
  {
    var ys := xs[0 := x];
    assert ys[0] == x;
    assert forall r | r in b.refs :: Holds(fm, r, Arr(xs)) ==> Holds(fm, r, Arr(ys));
    assert forall y | y in ys :: y == x || y in xs;
    assert x in Arr(ys).items && !AcceptsBase(fm, a.kind, Arr(ys));
  }

  lemma ObjectWitness(fm: Formats, b: Node, a: Node, o: map<string, Value>, p: map<string, Value>, key: string)
    requires b.kind.ObjectOf? && a.kind.ObjectOf? && AcceptsBody(fm, b, Obj(o))
    requires forall k | k in b.kind.fields :: Accepts(fm, b.kind.fields[k], Lookup(p, k))
    requires b.kind.unknownKeys.Strict? ==> forall k | k in p :: k in b.kind.fields
    requires key in a.kind.fields && !Accepts(fm, a.kind.fields[key], Lookup(p, key))
    ensures Accepts(fm, b, Obj(p)) && !Accepts(fm, a, Obj(p))
  {
    assert forall r | r in b.refs :: Holds(fm, r, Obj(o)) ==> Holds(fm, r, Obj(p));
    assert !AcceptsBase(fm, a.kind, Obj(p));
  }

  lemma MisfitIsRejected(fm: Formats, n: Node)
    ensures !Accepts(fm, n, Misfit(n.kind))
  {
    assert !AcceptsBase(fm, n.kind, Misfit(n.kind));
  }

  /** An unsafe field addition shows: some value accepted before is rejected after. */
  lemma {:induction false} UnsafeAdditionShows(fm: Formats, b: Node, a: Node, path: seq<string>) returns (v: Value)
    requires WellKeyed(b) && WellKeyed(a) && Populated(fm, b)
    requires Within(Walk(b, a, path), Additive)
    requires !AddedFieldsSafe(fm, b, a)
    ensures Accepts(fm, b, v) && !Accepts(fm, a, v)
    decreases b, 1
  {
    NodeAxes(b, a, path, Additive);
    if b.kind.ArrayOf? {
      var xs: seq<Value> :| xs != [] && AcceptsBody(fm, b, Arr(xs));
      var x := UnsafeAdditionShows(fm, b.kind.element, a.kind.element, path + ["[]"]);
      ArrayWitness(fm, b, a, xs, x);
      v := Arr(xs[0 := x]);
    } else {
      v := UnsafeAdditionShowsInObject(fm, b, a, path);
    }
  }

  lemma {:induction false} UnsafeAdditionShowsInObject(fm: Formats, b: Node, a: Node, path: seq<string>) returns (v: Value)
    requires WellKeyed(b) && WellKeyed(a) && Populated(fm, b) && b.kind.ObjectOf? && a.kind.ObjectOf?
    requires Within(Walk(b, a, path), Additive)
    requires !AddedFieldsSafe(fm, b, a)
    ensures Accepts(fm, b, v) && !Accepts(fm, a, v)
    decreases b, 0
  {
    var bf, af, u := b.kind.fields, a.kind.fields, b.kind.unknownKeys;
    var o: map<string, Value> :| AcceptsBody(fm, b, Obj(o));
    if added :| added in af && added !in bf && !(u.Strict? && DefaultAccepted(fm, af[added])) {
      var p := UnsafeKeyWitness(fm, b, a, path, o, added);
      v := Obj(p);
    } else {
      var key :| key in bf && key in af && !AddedFieldsSafe(fm, bf[key], af[key]);
      KeyAxis(b, a, path, Additive, key);
      var x := UnsafeAdditionShows(fm, bf[key], af[key], path + [key]);
      FieldWitness(fm, b, a, o, key, x);
      v := Obj(o[key := x]);
    }
  }

  lemma FieldWitness(fm: Formats, b: Node, a: Node, o: map<string, Value>, key: string, x: Value)
    requires b.kind.ObjectOf? && a.kind.ObjectOf? && AcceptsBody(fm, b, Obj(o))
    requires key in b.kind.fields && key in a.kind.fields
    requires Accepts(fm, b.kind.fields[key], x) && !Accepts(fm, a.kind.fields[key], x)
    ensures Accepts(fm, b, Obj(o[key := x])) && !Accepts(fm, a, Obj(o[key := x]))
  {
    assert forall k :: Lookup(o[key := x], k) == if k == key then x else Lookup(o, k);
    ObjectWitness(fm, b, a, o, o[key := x], key);
  }

  lemma UnsafeKeyWitness(fm: Formats, b: Node, a: Node, path: seq<string>, o: map<string, Value>, key: string)
    returns (p: map<string, Value>)
    requires WellKeyed(b) && WellKeyed(a) && b.kind.ObjectOf? && a.kind.ObjectOf?
    requires AcceptsBody(fm, b, Obj(o))
    requires Within(Walk(b, a, path), Additive)
    requires key in a.kind.fields && key !in b.kind.fields
    requires !(b.kind.unknownKeys.Strict? && DefaultAccepted(fm, a.kind.fields[key]))
    ensures Accepts(fm, b, Obj(p)) && !Accepts(fm, a, Obj(p))
  {
    var field := a.kind.fields[key];
    KeyAxis(b, a, path, Additive, key);
    AddedFieldAcceptsAbsence(fm, b.kind, a.kind, path, key);
    MisfitIsRejected(fm, field);
    p := if b.kind.unknownKeys.Strict? then o else o[key := Misfit(field.kind)];
    assert forall k | k != key :: Lookup(p, k) == Lookup(o, k);
    ObjectWitness(fm, b, a, o, p, key);
  }

  /** Every value `narrow` accepts, `wide` accepts. */
  ghost predicate Covers(fm: Formats, narrow: Node, wide: Node) {
    forall v | Accepts(fm, narrow, v) :: Accepts(fm, wide, v)
  }

  /** Soundness of "not breaking", with the condition under which it holds: both ways. */
  lemma NonBreakingSoundIffAdditionsSafe(fm: Formats, b: Node, a: Node)
    requires WellKeyed(b) && WellKeyed(a) && DistinctRefinements(a) && Populated(fm, b)
    requires Within(Walk(b, a, []), Additive)
    ensures Covers(fm, b, a) <==> AddedFieldsSafe(fm, b, a)
  {
    if AddedFieldsSafe(fm, b, a) {
      forall v | Accepts(fm, b, v) ensures Accepts(fm, a, v) {
        NonBreakingSound(fm, b, a, v);
      }
    } else {
      var v := UnsafeAdditionShows(fm, b, a, []);
    }
  }

  lemma NonBreakingSound(fm: Formats, b: Node, a: Node, v: Value)
    requires WellKeyed(b) && WellKeyed(a) && DistinctRefinements(a)
    requires Within(Walk(b, a, []), Additive)
    requires AddedFieldsSafe(fm, b, a)
    requires Accepts(fm, b, v)
    ensures Accepts(fm, a, v)
  {
    LastWinsAcceptsMore(fm, b, v);
    NonBreakingLoosens(fm, b, a, [], v);
    LastWinsNodeOfDistinct(a);
  }

  /** At most cosmetic: the two schemas accept the same values. */
  lemma CosmeticMeansEquivalent(fm: Formats, b: Node, a: Node, v: Value)
    requires WellKeyed(b) && WellKeyed(a) && DistinctRefinements(b) && DistinctRefinements(a)
    requires Within(Walk(b, a, []), Cosmetic)
    ensures Accepts(fm, b, v) <==> Accepts(fm, a, v)
  {
    CosmeticPreserves(fm, b, a, [], v);
    LastWinsNodeOfDistinct(a);
    LastWinsNodeOfDistinct(b);
  }
}
