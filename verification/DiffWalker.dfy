/** The classifier as it runs: loops that push onto lists and fill maps, proved to produce `Diff.Walk`. */
module DiffWalker {
  import opened Values
  import opened Schema
  import opened Diff

  method DiffNodes(before: Node, after: Node) returns (changes: seq<Change>)
    requires WellKeyed(before) && WellKeyed(after)
    ensures changes == Walk(before, after, [])
  {
    changes := WalkNode(before, after, []);
  }

  method WalkNode(before: Node, after: Node, path: seq<string>) returns (out: seq<Change>)
    requires WellKeyed(before) && WellKeyed(after)
    ensures out == Walk(before, after, path)
    decreases before, 1
  {
    if !SameKind(before.kind, after.kind) {
      return [Change(Breaking, path, TypeChanged)];
    }
    out := DiffMetadata(before.meta, after.meta, path);
    out := out + DiffDefault(before.mods, after.mods, path);
    out := out + DiffAbsence(before.mods, after.mods, path);
    var refinements := RefinementChanges(before.refs, after.refs, path);
    out := out + refinements;
    var inner := [];
    match before.kind {
      case ObjectOf(_, _, _) => inner := ObjectChanges(before, after, path);
      case ArrayOf(e) => inner := WalkNode(e, after.kind.element, path + ["[]"]);
      case Enum(values) => inner := EnumChanges(values, after.kind.values, path);
      case Literal(x) =>
        if x != after.kind.value {
          inner := [Change(Breaking, path, LiteralChanged)];
        }
      case _ =>
    }
    out := out + inner;
  }

  /** A `Map` filled with `set(r.name, r)`: names in first-seen order, values of the last call. */
  method IndexByName(refs: seq<Refinement>) returns (names: seq<RefinementName>, byName: map<RefinementName, Refinement>)
    ensures names == Names(refs) && Indexes(byName, refs)
    ensures forall name :: name in byName <==> name in names
  {
    names, byName := [], map[];
    for i := 0 to |refs|
      invariant names == Names(refs[..i])
      invariant forall name :: name in byName <==> name in names
      invariant Indexes(byName, refs[..i])
    {
      assert Front(refs[..i + 1]) == refs[..i];
      var r := refs[i];
      if r.name !in byName {
        names := names + [r.name];
      }
      byName := byName[r.name := r];
    }
    assert refs[..|refs|] == refs;
  }

  method RefinementChanges(before: seq<Refinement>, after: seq<Refinement>, path: seq<string>) returns (out: seq<Change>)
    ensures out == DiffRefinements(before, after, path)
  {
    var beforeNames, beforeByName := IndexByName(before);
    var afterNames, afterByName := IndexByName(after);
    out := LoosenedChanges(beforeNames, after, afterByName, path);
    var tightened := TightenedChanges(afterNames, before, beforeByName, path);
    out := out + tightened;
    var moved := ParameterChanges(beforeNames, before, beforeByName, after, afterByName, path);
    out := out + moved;
    if |out| == 0 && NameList(before) != NameList(after) && multiset(NameList(before)) == multiset(NameList(after)) {
      out := [Change(Cosmetic, path, RefinementsReordered)];
    }
  }

  /** `byName` is what `IndexByName` builds from `refs`. */
  ghost predicate Indexes(byName: map<RefinementName, Refinement>, refs: seq<Refinement>) {
    forall name ::
      if name in byName then LastNamed(refs, name) == Some(byName[name]) else LastNamed(refs, name) == None
  }

  method LoosenedChanges(names: seq<RefinementName>, ghost after: seq<Refinement>,
                         afterByName: map<RefinementName, Refinement>, path: seq<string>) returns (out: seq<Change>)
    requires Indexes(afterByName, after)
    ensures out == Loosened(names, after, path)
  {
    out := [];
    for i := 0 to |names|
      invariant out == Loosened(names[..i], after, path)
    {
      assert Front(names[..i + 1]) == names[..i];
      if names[i] !in afterByName {
        out := out + [Change(Additive, path, RefinementChanged)];
      }
    }
    assert names[..|names|] == names;
  }

  method TightenedChanges(names: seq<RefinementName>, ghost before: seq<Refinement>,
                          beforeByName: map<RefinementName, Refinement>, path: seq<string>) returns (out: seq<Change>)
    requires Indexes(beforeByName, before)
    ensures out == Tightened(names, before, path)
  {
    out := [];
    for i := 0 to |names|
      invariant out == Tightened(names[..i], before, path)
    {
      assert Front(names[..i + 1]) == names[..i];
      if names[i] !in beforeByName {
        out := out + [Change(Breaking, path, RefinementChanged)];
      }
    }
    assert names[..|names|] == names;
  }

  method ParameterChanges(names: seq<RefinementName>,
                          ghost before: seq<Refinement>, beforeByName: map<RefinementName, Refinement>,
                          ghost after: seq<Refinement>, afterByName: map<RefinementName, Refinement>,
                          path: seq<string>) returns (out: seq<Change>)
    requires Indexes(beforeByName, before) && Indexes(afterByName, after)
    requires forall name | name in names :: name in beforeByName
    ensures out == Reparametrised(names, before, after, path)
  {
    out := [];
    for i := 0 to |names|
      invariant out == Reparametrised(names[..i], before, after, path)
    {
      assert Front(names[..i + 1]) == names[..i];
      var name := names[i];
      if name in afterByName && beforeByName[name].params != afterByName[name].params {
        out := out + [Change(ParamSeverity(beforeByName[name], afterByName[name]), path, RefinementChanged)];
      }
    }
    assert names[..|names|] == names;
  }

  method ObjectChanges(before: Node, after: Node, path: seq<string>) returns (out: seq<Change>)
    requires WellKeyed(before) && WellKeyed(after) && before.kind.ObjectOf? && after.kind.ObjectOf?
    ensures out == DiffUnknownKeys(before.kind.unknownKeys, after.kind.unknownKeys, path)
                   + DiffKeys(before.kind, after.kind, AllKeys(before.kind.order, after.kind.order), path)
    decreases before, 0
  {
    out := DiffUnknownKeys(before.kind.unknownKeys, after.kind.unknownKeys, path);
    var keys := UnionOfKeys(before.kind.order, after.kind.order);
    var fieldChanges := [];
    for i := 0 to |keys|
      invariant fieldChanges == DiffKeys(before.kind, after.kind, keys[..i], path)
    {
      assert Front(keys[..i + 1]) == keys[..i];
      var changes := KeyChanges(before.kind, after.kind, keys[i], path);
      fieldChanges := fieldChanges + changes;
    }
    assert keys[..|keys|] == keys;
    out := out + fieldChanges;
  }

  method KeyChanges(before: Kind, after: Kind, key: string, path: seq<string>) returns (out: seq<Change>)
    requires WellKeyedFields(before) && WellKeyedFields(after)
    ensures out == DiffKey(before, after, key, path)
    decreases before
  {
    out := [];
    if key !in before.fields && key in after.fields {
      out := [Change(NewFieldSeverity(after.fields[key].mods), path + [key], FieldAdded)];
    } else if key in before.fields && key !in after.fields {
      out := [Change(Breaking, path + [key], FieldRemoved)];
    } else if key in before.fields && key in after.fields {
      out := WalkNode(before.fields[key], after.fields[key], path + [key]);
    }
  }

  /** `new Set([...bs, ...cs])`. */
  method UnionOfKeys(bs: seq<string>, cs: seq<string>) returns (keys: seq<string>)
    ensures keys == AllKeys(bs, cs)
  {
    keys := bs;
    for i := 0 to |cs|
      invariant keys == AllKeys(bs, cs[..i])
    {
      assert Front(cs[..i + 1]) == cs[..i];
      if cs[i] !in keys {
        keys := keys + [cs[i]];
      }
    }
    assert cs[..|cs|] == cs;
  }

  method EnumChanges(before: seq<Json>, after: seq<Json>, path: seq<string>) returns (out: seq<Change>)
    ensures out == EnumAdded(before, after, path) + EnumRemoved(before, after, path)
  {
    out := [];
    for i := 0 to |after|
      invariant out == EnumAdded(before, after[..i], path)
    {
      assert Front(after[..i + 1]) == after[..i];
      if after[i] !in before {
        out := out + [Change(Additive, path, EnumValueAdded)];
      }
    }
    assert after[..|after|] == after;
    ghost var added := out;
    for i := 0 to |before|
      invariant out == added + EnumRemoved(before[..i], after, path)
    {
      assert Front(before[..i + 1]) == before[..i];
      if before[i] !in after {
        out := out + [Change(Breaking, path, EnumValueRemoved)];
      }
    }
    assert before[..|before|] == before;
  }

  method ComputeWorstSeverity(changes: seq<Change>) returns (worst: Option<Severity>)
    ensures IsWorst(changes, worst)
  {
    if |changes| == 0 {
      return None;
    }
    var severity := Cosmetic;
    for i := 0 to |changes|
      invariant Within(changes[..i], severity)
      invariant severity == Cosmetic || exists c | c in changes[..i] :: c.severity == severity
    {
      assert changes[..i + 1] == changes[..i] + [changes[i]];
      if Rank(changes[i].severity) > Rank(severity) {
        severity := changes[i].severity;
      }
      assert changes[i] in changes[..i + 1];
    }
    assert changes[..|changes|] == changes;
    assert changes[0] in changes;
    return Some(severity);
  }
}
