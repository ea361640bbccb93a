/** Canonical serialization, the text behind an IR hash: keys sorted, undefined properties dropped. */
module Canonical {
  import opened Values
  import opened JsonText
  import opened Lexing
  import opened Json
  import opened JsonReading
  import opened KeyOrder

  // ---- The canonical form ----

  function InsertProp(less: (string, string) -> bool, p: Prop, props: seq<Prop>): seq<Prop> {
    if props == [] then [p]
    else if less(props[0].key, p.key) then [props[0]] + InsertProp(less, p, props[1..])
    else [p] + props
  }

  function Sorted(less: (string, string) -> bool, props: seq<Prop>): seq<Prop> {
    if props == [] then [] else InsertProp(less, props[0], Sorted(less, props[1..]))
  }

  function Canon(less: (string, string) -> bool, t: Tree): Tree
    decreases t
  {
    match t
    case JArray(items) => JArray(CanonItems(less, items))
    case JObject(props) => JObject(Sorted(less, CanonProps(less, props)))
    case _ => t
  }

  function CanonItems(less: (string, string) -> bool, items: seq<Tree>): (r: seq<Tree>)
    ensures |r| == |items|
    decreases items
  {
    if items == [] then [] else [Canon(less, items[0])] + CanonItems(less, items[1..])
  }

  /** The defined properties, in their own order, with canonical values. */
  function CanonProps(less: (string, string) -> bool, props: seq<Prop>): seq<Prop>
    decreases props
  {
    if props == [] then []
    else if props[0].value.JUndefined? then CanonProps(less, props[1..])
    else [Prop(props[0].key, Canon(less, props[0].value))] + CanonProps(less, props[1..])
  }

  function SerializeIR(less: (string, string) -> bool, t: Tree): string {
    Text(Canon(less, t), false, 0)
  }

  // ---- What a document means ----

  datatype Doc =
    | DUndefined | DNull | DBool(flag: bool) | DNumber(digits: string) | DText(text: string)
    | DArray(items: seq<Doc>)
    | DObject(props: map<string, Doc>)

  /** A document up to the order of keys and undefined-valued properties. */
  function Meaning(t: Tree): Doc
    decreases t
  {
    match t
    case JUndefined => DUndefined
    case JNull => DNull
    case JBool(b) => DBool(b)
    case JNumber(digits) => DNumber(digits)
    case JText(s) => DText(s)
    case JArray(items) => DArray(seq(|items|, i requires 0 <= i < |items| => Meaning(items[i])))
    case JObject(props) => DObject(PropsMeaning(props))
  }

  function PropsMeaning(props: seq<Prop>): map<string, Doc>
    decreases props
  {
    if props == [] then map[]
    else if props[0].value.JUndefined? then PropsMeaning(props[1..])
    else PropsMeaning(props[1..])[props[0].key := Meaning(props[0].value)]
  }

  predicate Binds(m: map<string, Doc>, k: string, d: Doc) {
    k in m && m[k] == d
  }

  predicate KeysDiffer(props: seq<Prop>) {
    forall i, j | 0 <= i < j < |props| :: props[i].key != props[j].key
  }

  /** A JavaScript value built of plain objects and arrays: keys differ, and only properties may be undefined. */
  predicate IsPlain(t: Tree) {
    match t
    case JNumber(digits) => IsNumberWord(digits)
    case JArray(items) => forall x | x in items :: !x.JUndefined? && IsPlain(x)
    case JObject(props) => KeysDiffer(props) && forall p | p in props :: IsPlain(p.value)
    case _ => true
  }

  // ---- Sorting ----

  predicate IsSorted(less: (string, string) -> bool, props: seq<Prop>) {
    forall i, j | 0 <= i < j < |props| :: less(props[i].key, props[j].key)
  }

  lemma {:induction false} InsertMembers(less: (string, string) -> bool, p: Prop, props: seq<Prop>, x: Prop)
    ensures x in InsertProp(less, p, props) <==> x == p || x in props
  {
    if props != [] && less(props[0].key, p.key) {
      InsertMembers(less, p, props[1..], x);
    }
  }

  lemma {:induction false} SortedMembers(less: (string, string) -> bool, props: seq<Prop>, x: Prop)
    ensures x in Sorted(less, props) <==> x in props
  {
    if props != [] {
      SortedMembers(less, props[1..], x);
      InsertMembers(less, props[0], Sorted(less, props[1..]), x);
    }
  }

  lemma {:induction false} InsertKeepsSorted(less: (string, string) -> bool, p: Prop, props: seq<Prop>)
    requires IsKeyOrder(less) && IsSorted(less, props) && forall x | x in props :: x.key != p.key
    ensures IsSorted(less, InsertProp(less, p, props))
  {
    if props != [] {
      var head, rest := props[0], props[1..];
      assert head in props && forall x | x in rest :: x in props;
      if less(head.key, p.key) {
        InsertKeepsSorted(less, p, rest);
        forall x | x in InsertProp(less, p, rest) ensures less(head.key, x.key) {
          InsertMembers(less, p, rest, x);
          if x in rest {
            var i :| 0 <= i < |rest| && rest[i] == x;
            assert props[i + 1] == x;
          }
        }
        ConsSorted(less, head, InsertProp(less, p, rest));
      } else {
        assert less(p.key, head.key);
        forall x | x in props ensures less(p.key, x.key) {
          var i :| 0 <= i < |props| && props[i] == x;
          assert i > 0 ==> less(head.key, x.key);
        }
        ConsSorted(less, p, props);
      }
    }
  }

  lemma ConsSorted(less: (string, string) -> bool, p: Prop, props: seq<Prop>)
    requires IsSorted(less, props) && forall x | x in props :: less(p.key, x.key)
    ensures IsSorted(less, [p] + props)
  {
    var all := [p] + props;
    forall i, j | 0 <= i < j < |all| ensures less(all[i].key, all[j].key) {
      assert all[j] == props[j - 1] && props[j - 1] in props;
      assert i > 0 ==> all[i] == props[i - 1];
    }
  }

  lemma {:induction false} SortedIsSorted(less: (string, string) -> bool, props: seq<Prop>)
    requires IsKeyOrder(less) && KeysDiffer(props)
    ensures IsSorted(less, Sorted(less, props))
  {
    if props != [] {
      var rest := props[1..];
      SortedIsSorted(less, rest);
      forall x | x in Sorted(less, rest) ensures x.key != props[0].key {
        SortedMembers(less, rest, x);
        var i :| 0 <= i < |rest| && rest[i] == x;
        assert props[i + 1] == x;
      }
      InsertKeepsSorted(less, props[0], Sorted(less, rest));
    }
  }

  /** Sorted lists with the same members are the same list. */
  lemma {:induction false} SortedIsUnique(less: (string, string) -> bool, a: seq<Prop>, b: seq<Prop>)
    requires IsKeyOrder(less) && IsSorted(less, a) && IsSorted(less, b)
    requires forall x :: x in a <==> x in b
    ensures a == b
  {
    EmptyTogether(a, b);
    if a != [] {
      assert a[0] in a && a[0] in b;
      HeadsAgree(less, a, b);
      forall x ensures x in a[1..] <==> x in b[1..] {
        TailMembers(less, a, x);
        TailMembers(less, b, x);
      }
      SortedIsUnique(less, a[1..], b[1..]);
      assert a == [a[0]] + a[1..] && b == [b[0]] + b[1..];
    }
  }

  lemma EmptyTogether(a: seq<Prop>, b: seq<Prop>)
    requires forall x :: x in a <==> x in b
    ensures a == [] <==> b == []
  {
    if a != [] {
      assert a[0] in a;
    }
    if b != [] {
      assert b[0] in b;
    }
  }

  lemma HeadsAgree(less: (string, string) -> bool, a: seq<Prop>, b: seq<Prop>)
    requires IsKeyOrder(less) && IsSorted(less, a) && IsSorted(less, b)
    requires a != [] && b != [] && a[0] in b && forall x :: x in a <==> x in b
    ensures a[0] == b[0]
  {
    assert b[0] in b && b[0] in a;
    var i :| 0 <= i < |b| && b[i] == a[0];
    var j :| 0 <= j < |a| && a[j] == b[0];
    if i > 0 && j > 0 {
      assert false;
    }
  }

  lemma TailMembers(less: (string, string) -> bool, a: seq<Prop>, x: Prop)
    requires IsKeyOrder(less) && IsSorted(less, a) && a != []
    ensures x in a[1..] <==> x in a && x != a[0]
  {
    if x in a[1..] {
      var i :| 0 <= i < |a[1..]| && a[1..][i] == x;
      assert a[i + 1] == x && less(a[0].key, x.key);
    }
  }

  // ---- Faithfulness ----

  lemma {:induction false} CanonPropsMembers(less: (string, string) -> bool, props: seq<Prop>, x: Prop)
    ensures x in CanonProps(less, props) <==>
            exists p | p in props :: !p.value.JUndefined? && x == Prop(p.key, Canon(less, p.value))
  {
    if props != [] {
      CanonPropsMembers(less, props[1..], x);
      assert props == [props[0]] + props[1..];
    }
  }

  lemma {:induction false} CanonPropsKeysDiffer(less: (string, string) -> bool, props: seq<Prop>)
    requires KeysDiffer(props)
    ensures KeysDiffer(CanonProps(less, props))
  {
    if props != [] {
      var rest := CanonProps(less, props[1..]);
      CanonPropsKeysDiffer(less, props[1..]);
      forall i | 0 <= i < |rest| ensures rest[i].key != props[0].key {
        CanonPropsMembers(less, props[1..], rest[i]);
        assert rest[i] in rest;
        var p :| p in props[1..] && rest[i].key == p.key;
        var j :| 0 <= j < |props[1..]| && props[1..][j] == p;
        assert props[j + 1] == p;
      }
    }
  }

  lemma {:induction false} PropsMeaningAt(props: seq<Prop>, k: string, d: Doc)
    requires KeysDiffer(props)
    ensures Binds(PropsMeaning(props), k, d) <==>
            exists p | p in props :: !p.value.JUndefined? && p.key == k && Meaning(p.value) == d
  {
    if props != [] {
      PropsMeaningAt(props[1..], k, d);
      assert props == [props[0]] + props[1..];
      forall p | p in props[1..] ensures p.key != props[0].key {
        var i :| 0 <= i < |props[1..]| && props[1..][i] == p;
        assert props[i + 1] == p;
      }
    }
  }

  lemma {:induction false} CanonItemsAt(less: (string, string) -> bool, items: seq<Tree>, i: nat)
    requires i < |items|
    ensures CanonItems(less, items)[i] == Canon(less, items[i])
  {
    if i > 0 {
      CanonItemsAt(less, items[1..], i - 1);
    }
  }

  /** Values that mean the same have the same canonical form. */
  lemma {:induction false} SameMeaningSameCanon(less: (string, string) -> bool, a: Tree, b: Tree)
    requires IsKeyOrder(less) && IsPlain(a) && IsPlain(b) && Meaning(a) == Meaning(b)
    ensures Canon(less, a) == Canon(less, b)
    decreases a
  {
    match a {
      case JArray(items) =>
        forall i | 0 <= i < |items| ensures CanonItems(less, items)[i] == CanonItems(less, b.items)[i] {
          assert Meaning(a).items[i] == Meaning(b).items[i];
          SameMeaningSameCanon(less, items[i], b.items[i]);
          CanonItemsAt(less, items, i);
          CanonItemsAt(less, b.items, i);
        }
      case JObject(props) =>
        assert PropsMeaning(props) == PropsMeaning(b.props);
        forall p, q | p in props && q in b.props && Meaning(p.value) == Meaning(q.value)
          ensures Canon(less, p.value) == Canon(less, q.value)
        {
          SameMeaningSameCanon(less, p.value, q.value);
        }
        SamePropsSameCanon(less, props, b.props);
      case _ =>
    }
  }

  lemma SamePropsSameCanon(less: (string, string) -> bool, a: seq<Prop>, b: seq<Prop>)
    requires IsKeyOrder(less) && KeysDiffer(a) && KeysDiffer(b) && PropsMeaning(a) == PropsMeaning(b)
    requires forall p, q | p in a && q in b && Meaning(p.value) == Meaning(q.value) :: Canon(less, p.value) == Canon(less, q.value)
    ensures Sorted(less, CanonProps(less, a)) == Sorted(less, CanonProps(less, b))
  {
    CanonPropsKeysDiffer(less, a);
    CanonPropsKeysDiffer(less, b);
    SortedIsSorted(less, CanonProps(less, a));
    SortedIsSorted(less, CanonProps(less, b));
    forall x ensures x in Sorted(less, CanonProps(less, a)) <==> x in Sorted(less, CanonProps(less, b)) {
      SortedMembers(less, CanonProps(less, a), x);
      SortedMembers(less, CanonProps(less, b), x);
      CanonPropsMembers(less, a, x);
      CanonPropsMembers(less, b, x);
      if p :| p in a && !p.value.JUndefined? && x == Prop(p.key, Canon(less, p.value)) {
        PropsMeaningAt(a, p.key, Meaning(p.value));
        PropsMeaningAt(b, p.key, Meaning(p.value));
      }
      if p :| p in b && !p.value.JUndefined? && x == Prop(p.key, Canon(less, p.value)) {
        PropsMeaningAt(a, p.key, Meaning(p.value));
        PropsMeaningAt(b, p.key, Meaning(p.value));
      }
    }
    SortedIsUnique(less, Sorted(less, CanonProps(less, a)), Sorted(less, CanonProps(less, b)));
  }

  /** The canonical form means what the value means, and is a plain document. */
  lemma {:induction false} CanonKeepsMeaning(less: (string, string) -> bool, t: Tree)
    requires IsKeyOrder(less) && IsPlain(t)
    ensures Meaning(Canon(less, t)) == Meaning(t)
    ensures IsPlain(Canon(less, t)) && (t.JUndefined? || IsDocument(Canon(less, t)))
    decreases t
  {
    match t {
      case JArray(items) =>
        var canon := CanonItems(less, items);
        forall i | 0 <= i < |items|
          ensures Meaning(canon[i]) == Meaning(items[i]) && IsPlain(canon[i]) && IsDocument(canon[i])
        {
          assert items[i] in items;
          CanonItemsAt(less, items, i);
          CanonKeepsMeaning(less, items[i]);
        }
        assert Meaning(Canon(less, t)).items == Meaning(t).items;
        assert forall x | x in canon :: IsPlain(x) && IsDocument(x);
      case JObject(props) =>
        forall p | p in props
          ensures Meaning(Canon(less, p.value)) == Meaning(p.value)
          ensures IsPlain(Canon(less, p.value)) && (p.value.JUndefined? || IsDocument(Canon(less, p.value)))
        {
          CanonKeepsMeaning(less, p.value);
        }
        CanonPropsKeepMeaning(less, props);
      case _ =>
    }
  }

  lemma CanonPropsKeepMeaning(less: (string, string) -> bool, props: seq<Prop>)
    requires IsKeyOrder(less) && KeysDiffer(props)
    requires forall p | p in props :: Meaning(Canon(less, p.value)) == Meaning(p.value) && IsPlain(Canon(less, p.value))
    requires forall p | p in props :: p.value.JUndefined? || IsDocument(Canon(less, p.value))
    ensures var canon := JObject(Sorted(less, CanonProps(less, props)));
            Meaning(canon) == DObject(PropsMeaning(props)) && IsPlain(canon) && IsDocument(canon)
  {
    var canon := Sorted(less, CanonProps(less, props));
    CanonPropsKeysDiffer(less, props);
    SortedIsSorted(less, CanonProps(less, props));
    SortedKeysDiffer(less, canon);
    forall x | x in canon
      ensures exists p | p in props :: !p.value.JUndefined? && x == Prop(p.key, Canon(less, p.value))
    {
      SortedMembers(less, CanonProps(less, props), x);
      CanonPropsMembers(less, props, x);
    }
    forall k, d
      ensures Binds(PropsMeaning(canon), k, d) <==> Binds(PropsMeaning(props), k, d)
    {
      CanonMeaningAt(less, props, k, d);
    }
    SameEntriesSameMap(PropsMeaning(canon), PropsMeaning(props));
  }

  lemma SortedKeysDiffer(less: (string, string) -> bool, props: seq<Prop>)
    requires IsKeyOrder(less) && IsSorted(less, props)
    ensures KeysDiffer(props)
  {
    forall i, j | 0 <= i < j < |props| ensures props[i].key != props[j].key {
      assert less(props[i].key, props[j].key);
    }
  }

  lemma CanonMeaningAt(less: (string, string) -> bool, props: seq<Prop>, k: string, d: Doc)
    requires IsKeyOrder(less) && KeysDiffer(props) && KeysDiffer(Sorted(less, CanonProps(less, props)))
    requires forall p | p in props :: Meaning(Canon(less, p.value)) == Meaning(p.value)
    ensures var canon := Sorted(less, CanonProps(less, props));
            Binds(PropsMeaning(canon), k, d) <==> Binds(PropsMeaning(props), k, d)
  {
    var canon := Sorted(less, CanonProps(less, props));
    PropsMeaningAt(canon, k, d);
    PropsMeaningAt(props, k, d);
    if p :| p in props && !p.value.JUndefined? && p.key == k && Meaning(p.value) == d {
      var x := Prop(p.key, Canon(less, p.value));
      CanonPropsMembers(less, props, x);
      SortedMembers(less, CanonProps(less, props), x);
      CanonIsDefined(less, p.value);
    }
    if x :| x in canon && !x.value.JUndefined? && x.key == k && Meaning(x.value) == d {
      SortedMembers(less, CanonProps(less, props), x);
      CanonPropsMembers(less, props, x);
    }
  }

  lemma CanonIsDefined(less: (string, string) -> bool, t: Tree)
    ensures Canon(less, t).JUndefined? <==> t.JUndefined?
  {
  }

  lemma SameEntriesSameMap(a: map<string, Doc>, b: map<string, Doc>)
    requires forall k, d :: Binds(a, k, d) <==> Binds(b, k, d)
    ensures a == b
  {
    forall k ensures k in a <==> k in b {
      assert k in a ==> Binds(a, k, a[k]);
      assert k in b ==> Binds(b, k, b[k]);
    }
    forall k | k in a ensures a[k] == b[k] {
      assert Binds(a, k, a[k]);
    }
  }

  lemma CanonIsIdempotent(less: (string, string) -> bool, t: Tree)
    requires IsKeyOrder(less) && IsPlain(t)
    ensures Canon(less, Canon(less, t)) == Canon(less, t)
  {
    CanonKeepsMeaning(less, t);
    SameMeaningSameCanon(less, Canon(less, t), t);
  }

  /** Two values serialize to the same text exactly when they are equal up to key order and undefined properties. */
  lemma SerializationIsFaithful(less: (string, string) -> bool, a: Tree, b: Tree)
    requires IsKeyOrder(less) && IsPlain(a) && IsPlain(b) && !a.JUndefined? && !b.JUndefined?
    ensures SerializeIR(less, a) == SerializeIR(less, b) <==> Meaning(a) == Meaning(b)
  {
    CanonKeepsMeaning(less, a);
    CanonKeepsMeaning(less, b);
    TextIsInjective(Canon(less, a), Canon(less, b), false);
    if Meaning(a) == Meaning(b) {
      SameMeaningSameCanon(less, a, b);
    }
  }

  // ---- Canonicalizing, key by key ----

  lemma {:induction false} CanonPropsConcat(less: (string, string) -> bool, a: seq<Prop>, b: seq<Prop>)
    ensures CanonProps(less, a + b) == CanonProps(less, a) + CanonProps(less, b)
    decreases |a|
  {
    if a == [] {
      assert a + b == b;
    } else {
      assert (a + b)[0] == a[0] && (a + b)[1..] == a[1..] + b;
      CanonPropsConcat(less, a[1..], b);
    }
  }

  lemma {:induction false} CanonItemsConcat(less: (string, string) -> bool, a: seq<Tree>, b: seq<Tree>)
    ensures CanonItems(less, a + b) == CanonItems(less, a) + CanonItems(less, b)
    decreases |a|
  {
    if a == [] {
      assert a + b == b;
    } else {
      assert (a + b)[0] == a[0] && (a + b)[1..] == a[1..] + b;
      CanonItemsConcat(less, a[1..], b);
    }
  }

  lemma {:induction false} CanonPropsStaySorted(less: (string, string) -> bool, props: seq<Prop>)
    requires IsKeyOrder(less) && IsSorted(less, props)
    ensures IsSorted(less, CanonProps(less, props))
  {
    if props != [] {
      var rest := props[1..];
      CanonPropsStaySorted(less, rest);
      if !props[0].value.JUndefined? {
        forall x | x in CanonProps(less, rest) ensures less(props[0].key, x.key) {
          CanonPropsMembers(less, rest, x);
          var p :| p in rest && x.key == p.key;
          var i :| 0 <= i < |rest| && rest[i] == p;
          assert props[i + 1] == p;
        }
        ConsSorted(less, Prop(props[0].key, Canon(less, props[0].value)), CanonProps(less, rest));
      }
    }
  }

  /** Sorting first and canonicalizing the values after comes to the same. */
  lemma SortingCommutes(less: (string, string) -> bool, props: seq<Prop>)
    requires IsKeyOrder(less) && KeysDiffer(props)
    ensures CanonProps(less, Sorted(less, props)) == Sorted(less, CanonProps(less, props))
  {
    var sorted := Sorted(less, props);
    SortedIsSorted(less, props);
    CanonPropsStaySorted(less, sorted);
    CanonPropsKeysDiffer(less, props);
    SortedIsSorted(less, CanonProps(less, props));
    forall x ensures x in CanonProps(less, sorted) <==> x in Sorted(less, CanonProps(less, props)) {
      CanonPropsMembers(less, sorted, x);
      CanonPropsMembers(less, props, x);
      SortedMembers(less, CanonProps(less, props), x);
      forall p ensures p in sorted <==> p in props {
        SortedMembers(less, props, p);
      }
    }
    SortedIsUnique(less, CanonProps(less, sorted), Sorted(less, CanonProps(less, props)));
  }

  method Canonicalize(less: (string, string) -> bool, t: Tree) returns (r: Tree)
    requires IsKeyOrder(less) && IsPlain(t)
    ensures r == Canon(less, t)
    decreases t
  {
    match t {
      case JArray(items) =>
        var mapped := CanonicalizeItems(less, items);
        r := JArray(mapped);
      case JObject(props) =>
        var out := CanonicalizeProps(less, props);
        r := JObject(out);
      case _ => r := t;
    }
  }

  method CanonicalizeItems(less: (string, string) -> bool, items: seq<Tree>) returns (mapped: seq<Tree>)
    requires IsKeyOrder(less) && forall x | x in items :: IsPlain(x)
    ensures mapped == CanonItems(less, items)
    decreases items
  {
    mapped := [];
    for i := 0 to |items|
      invariant mapped == CanonItems(less, items[..i])
    {
      assert items[..i + 1] == items[..i] + [items[i]];
      CanonItemsConcat(less, items[..i], [items[i]]);
      var item := Canonicalize(less, items[i]);
      mapped := mapped + [item];
    }
    assert items[..|items|] == items;
  }

  /** The keys in sorted order; an undefined value is passed over. */
  method CanonicalizeProps(less: (string, string) -> bool, props: seq<Prop>) returns (out: seq<Prop>)
    requires IsKeyOrder(less) && KeysDiffer(props) && forall p | p in props :: IsPlain(p.value)
    ensures out == Sorted(less, CanonProps(less, props))
    decreases props
  {
    var sorted := Sorted(less, props);
    out := [];
    for i := 0 to |sorted|
      invariant out == CanonProps(less, sorted[..i])
    {
      assert sorted[..i + 1] == sorted[..i] + [sorted[i]];
      CanonPropsConcat(less, sorted[..i], [sorted[i]]);
      SortedMembers(less, props, sorted[i]);
      var j :| 0 <= j < |props| && props[j] == sorted[i];
      if props[j].value.JUndefined? {
        continue;
      }
      var value := Canonicalize(less, props[j].value);
      out := out + [Prop(sorted[i].key, value)];
    }
    assert sorted[..|sorted|] == sorted;
    SortingCommutes(less, props);
  }
}
