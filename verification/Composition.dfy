/** Composing object schemas: pick, omit, partial, required and merge, and how they relate. */
module Composition {
  import opened Values
  import opened Schema

  /** A schema as the builders hold it: the node the compilers read, and what it was composed of. */
  datatype Built =
    | ScalarSchema(node: Node)
    | ArraySchema(element: Built, node: Node)
    | ObjectSchema(shape: Shape, node: Node)

  /** A record of field schemas, with its keys in order. */
  datatype Shape = Shape(fields: map<string, Built>, order: seq<string>)

  predicate IsKeyed(s: Shape) {
    Distinct(s.order) && (forall k | k in s.order :: k in s.fields) && forall k | k in s.fields :: k in s.order
  }

  predicate IsShape(s: Shape) {
    IsKeyed(s) && forall k | k in s.fields :: IsSchema(s.fields[k])
  }

  function NodesOf(s: Shape): map<string, Node> {
    map k | k in s.fields :: s.fields[k].node
  }

  /** At every level, the node's parts are the nodes of the parts. */
  predicate IsSchema(s: Built) {
    match s
    case ScalarSchema(node) => !node.kind.ObjectOf? && !node.kind.ArrayOf?
    case ArraySchema(element, node) => IsSchema(element) && node.kind == ArrayOf(element.node)
    case ObjectSchema(shape, node) =>
      && IsKeyed(shape) && (forall k | k in shape.fields :: IsSchema(shape.fields[k]))
      && node.kind.ObjectOf? && node.kind.fields == NodesOf(shape) && node.kind.order == shape.order
  }

  predicate IsObjectSchema(s: Built) {
    s.ObjectSchema? && IsSchema(s)
  }

  /** A composed schema has no modifiers, refinements or metadata of its own. */
  function Composed(shape: Shape, u: UnknownKeys): (r: Built)
    ensures IsShape(shape) ==> IsObjectSchema(r)
  {
    ObjectSchema(shape, Node(ObjectOf(NodesOf(shape), shape.order, u), Modifiers(false, false, None), [],
                             Metadata(None, None, None, None)))
  }

  datatype ComposeError = KeysExist | UnknownKeysInMask | UnknownOverrides | FieldConflict | PolicyConflict

  /** A mask names keys; those with `true` are meant. */
  datatype Mask = Mask(order: seq<string>, flags: map<string, bool>)

  predicate Marks(m: Mask, k: string) {
    k in m.flags && m.flags[k]
  }

  predicate IsMask(m: Mask) {
    Distinct(m.order) && (forall k | k in m.order :: k in m.flags) && forall k | k in m.flags :: k in m.order
  }

  predicate FitsShape(m: Mask, s: Shape) {
    forall k | k in m.order :: k in s.fields
  }

  // ---- The shapes each operation gives ----

  /** The keys of `order` that satisfy `p`, in order. */
  function Kept(order: seq<string>, p: string -> bool): seq<string> {
    if order == [] then []
    else Kept(Front(order), p) + if p(LastOf(order)) then [LastOf(order)] else []
  }

  function Restricted(s: Shape, order: seq<string>, p: string -> bool): Shape {
    Shape(map k | k in s.fields && k in order && p(k) :: s.fields[k], Kept(order, p))
  }

  function Picked(s: Shape, m: Mask): Shape {
    Restricted(s, m.order, k => Marks(m, k))
  }

  function Omitted(s: Shape, m: Mask): Shape {
    Restricted(s, s.order, k => !Marks(m, k))
  }

  function PartialNode(n: Node): Node {
    n.(mods := Modifiers(true, n.mods.nullable, None))
  }

  function RequiredNode(n: Node): Node {
    n.(mods := Modifiers(false, n.mods.nullable, None))
  }

  /** A clone with another node keeps what the field was composed of. */
  function MakePartial(field: Built): (r: Built)
    ensures IsSchema(field) ==> IsSchema(r)
  {
    field.(node := PartialNode(field.node))
  }

  function MakeRequired(field: Built): (r: Built)
    ensures IsSchema(field) ==> IsSchema(r)
  {
    field.(node := RequiredNode(field.node))
  }

  /** `None` is the call without a mask: every key is affected. */
  predicate IsAffected(m: Option<Mask>, k: string) {
    m.Some? ==> Marks(m.value, k)
  }

  function Adjusted(s: Shape, m: Option<Mask>, change: Built -> Built): Shape {
    Shape(map k | k in s.fields :: if IsAffected(m, k) then change(s.fields[k]) else s.fields[k], s.order)
  }

  datatype Conflict = Throw | KeepLeft | KeepRight

  /** The keys that `s` does not have. */
  function NewTo(s: Shape): string -> bool {
    k => k !in s.fields
  }

  /** The keys that `s` has. */
  function KnownTo(s: Shape): string -> bool {
    k => k in s.fields
  }

  predicate IsTaken(s: Shape, t: Shape, c: Conflict, k: string) {
    k in t.fields && (k !in s.fields || c == KeepRight)
  }

  /** The fields of `s`, and those of `t` under the keys in `met` that are taken from it. */
  function Overlaid(s: Shape, t: Shape, c: Conflict, met: seq<string>): map<string, Built> {
    if met == [] then s.fields
    else
      var fields, key := Overlaid(s, t, c, Front(met)), LastOf(met);
      if IsTaken(s, t, c, key) then fields[key := t.fields[key]] else fields
  }

  function Merged(s: Shape, t: Shape, c: Conflict): Shape {
    Shape(Overlaid(s, t, c, t.order), s.order + Kept(t.order, NewTo(s)))
  }

  // ---- What each operation returns ----

  function ExtendResult(s: Built, extension: Shape): Result<Built, ComposeError>
    requires IsObjectSchema(s)
  {
    if Kept(extension.order, KnownTo(s.shape)) != [] then Err(KeysExist)
    else Ok(Composed(Merged(s.shape, extension, KeepLeft), s.node.kind.unknownKeys))
  }

  function PickResult(s: Built, m: Mask): Result<Built, ComposeError>
    requires IsObjectSchema(s)
  {
    if FitsShape(m, s.shape) then Ok(Composed(Picked(s.shape, m), s.node.kind.unknownKeys)) else Err(UnknownKeysInMask)
  }

  function OmitResult(s: Built, m: Mask): Result<Built, ComposeError>
    requires IsObjectSchema(s)
  {
    if FitsShape(m, s.shape) then Ok(Composed(Omitted(s.shape, m), s.node.kind.unknownKeys)) else Err(UnknownKeysInMask)
  }

  /** `partial` with `MakePartial`, `required` with `MakeRequired`. */
  function AdjustResult(s: Built, m: Option<Mask>, change: Built -> Built): Result<Built, ComposeError>
    requires IsObjectSchema(s)
  {
    if m.Some? && !FitsShape(m.value, s.shape) then Err(UnknownKeysInMask)
    else Ok(Composed(Adjusted(s.shape, m, change), s.node.kind.unknownKeys))
  }

  function MergeResult(s: Built, t: Built, c: Conflict, policy: Conflict): Result<Built, ComposeError>
    requires IsObjectSchema(s) && IsObjectSchema(t)
  {
    var u, w := s.node.kind.unknownKeys, t.node.kind.unknownKeys;
    if c.Throw? && Kept(t.shape.order, KnownTo(s.shape)) != [] then Err(FieldConflict)
    else if u != w && policy.Throw? then Err(PolicyConflict)
    else Ok(Composed(Merged(s.shape, t.shape, c), if u == w || policy.KeepLeft? then u else w))
  }

  /** An override may list a key whose replacement is undefined: the key is checked, and its field stays. */
  function OverrideResult(s: Built, overrides: Shape): Result<Built, ComposeError>
    requires IsObjectSchema(s)
  {
    if Kept(overrides.order, NewTo(s.shape)) != [] then Err(UnknownOverrides)
    else Ok(Composed(Merged(s.shape, overrides, KeepRight), s.node.kind.unknownKeys))
  }

  // ---- The operations ----

  method FillFrom(s: Shape, order: seq<string>, p: string -> bool) returns (shape: Shape)
    requires forall k | k in order :: k in s.fields
    ensures shape == Restricted(s, order, p)
  {
    shape := Shape(map[], []);
    for i := 0 to |order|
      invariant shape == Restricted(s, order[..i], p)
    {
      var key := order[i];
      assert Front(order[..i + 1]) == order[..i] && LastOf(order[..i + 1]) == key;
      if p(key) {
        shape := Shape(shape.fields[key := s.fields[key]], shape.order + [key]);
      }
    }
    assert order[..|order|] == order;
  }

  method Pick(s: Built, m: Mask) returns (r: Result<Built, ComposeError>)
    requires IsObjectSchema(s) && IsMask(m)
    ensures r == PickResult(s, m)
  {
    if !FitsShape(m, s.shape) {
      return Err(UnknownKeysInMask);
    }
    var shape := FillFrom(s.shape, m.order, k => Marks(m, k));
    r := Ok(Composed(shape, s.node.kind.unknownKeys));
  }

  method Omit(s: Built, m: Mask) returns (r: Result<Built, ComposeError>)
    requires IsObjectSchema(s) && IsMask(m)
    ensures r == OmitResult(s, m)
  {
    if !FitsShape(m, s.shape) {
      return Err(UnknownKeysInMask);
    }
    var shape := FillFrom(s.shape, s.shape.order, k => !Marks(m, k));
    r := Ok(Composed(shape, s.node.kind.unknownKeys));
  }

  /** The loop over the keys of the shape. */
  method AdjustFields(s: Shape, m: Option<Mask>, change: Built -> Built) returns (shape: Shape)
    requires IsKeyed(s)
    ensures shape == Adjusted(s, m, change)
  {
    var fields: map<string, Built> := map[];
    ghost var all := Adjusted(s, m, change).fields;
    for i := 0 to |s.order|
      invariant forall k :: k in fields <==> k in s.order[..i]
      invariant forall k | k in fields :: k in all && fields[k] == all[k]
    {
      var field := s.fields[s.order[i]];
      fields := fields[s.order[i] := if IsAffected(m, s.order[i]) then change(field) else field];
    }
    assert fields == all;
    shape := Shape(fields, s.order);
  }

  method Adjust(s: Built, m: Option<Mask>, change: Built -> Built) returns (r: Result<Built, ComposeError>)
    requires IsObjectSchema(s) && (m.Some? ==> IsMask(m.value))
    ensures r == AdjustResult(s, m, change)
  {
    if m.Some? && !FitsShape(m.value, s.shape) {
      return Err(UnknownKeysInMask);
    }
    var shape := AdjustFields(s.shape, m, change);
    r := Ok(Composed(shape, s.node.kind.unknownKeys));
  }

  method Merge(s: Built, t: Built, c: Conflict, policy: Conflict)
    returns (r: Result<Built, ComposeError>)
    requires IsObjectSchema(s) && IsObjectSchema(t)
    ensures r == MergeResult(s, t, c, policy)
  {
    var shape, collisions := MergeFields(s.shape, t.shape, c);
    if collisions != [] {
      return Err(FieldConflict);
    }
    var left, right := s.node.kind.unknownKeys, t.node.kind.unknownKeys;
    if left == right {
      return Ok(Composed(shape, left));
    }
    if policy.Throw? {
      return Err(PolicyConflict);
    }
    r := Ok(Composed(shape, if policy.KeepLeft? then left else right));
  }

  /** The field loop; a collision throws after the loop. */
  method MergeFields(s: Shape, t: Shape, c: Conflict) returns (shape: Shape, collisions: seq<string>)
    requires forall k | k in t.order :: k in t.fields
    ensures collisions == if c.Throw? then Kept(t.order, KnownTo(s)) else []
    ensures shape == Merged(s, t, c)
  {
    var fields, order := s.fields, s.order;
    collisions := [];
    for i := 0 to |t.order|
      invariant collisions == if c.Throw? then Kept(t.order[..i], KnownTo(s)) else []
      invariant fields == Overlaid(s, t, c, t.order[..i])
      invariant order == s.order + Kept(t.order[..i], NewTo(s))
    {
      var key := t.order[i];
      assert t.order[..i + 1] == t.order[..i] + [key];
      MergeStep(s, t, c, t.order[..i], key);
      if key in s.fields {
        if c.Throw? {
          collisions := collisions + [key];
        } else if c.KeepRight? {
          fields := fields[key := t.fields[key]];
        }
      } else {
        fields, order := fields[key := t.fields[key]], order + [key];
      }
    }
    assert t.order[..|t.order|] == t.order;
    shape := Shape(fields, order);
  }

  method Override(s: Built, overrides: Shape) returns (r: Result<Built, ComposeError>)
    requires IsObjectSchema(s) && Distinct(overrides.order) && forall k | k in overrides.fields :: k in overrides.order
    ensures r == OverrideResult(s, overrides)
  {
    if Kept(overrides.order, NewTo(s.shape)) != [] {
      return Err(UnknownOverrides);
    }
    var shape := OverrideFields(s.shape, overrides);
    r := Ok(Composed(shape, s.node.kind.unknownKeys));
  }

  /** The override loop: each field with a replacement is replaced. */
  method OverrideFields(s: Shape, overrides: Shape) returns (shape: Shape)
    requires Kept(overrides.order, NewTo(s)) == []
    requires forall k | k in overrides.fields :: k in overrides.order
    ensures shape == Merged(s, overrides, KeepRight)
  {
    var fields := s.fields;
    for i := 0 to |overrides.order|
      invariant fields == Overlaid(s, overrides, KeepRight, overrides.order[..i])
    {
      var key := overrides.order[i];
      assert Front(overrides.order[..i + 1]) == overrides.order[..i] && LastOf(overrides.order[..i + 1]) == key;
      if key in overrides.fields {
        fields := fields[key := overrides.fields[key]];
      }
    }
    assert overrides.order[..|overrides.order|] == overrides.order;
    shape := Shape(fields, s.order);
  }

  lemma MergeStep(s: Shape, t: Shape, c: Conflict, met: seq<string>, key: string)
    ensures Overlaid(s, t, c, met + [key]) ==
            if IsTaken(s, t, c, key) then Overlaid(s, t, c, met)[key := t.fields[key]] else Overlaid(s, t, c, met)
    ensures key in s.fields ==> Kept(met + [key], NewTo(s)) == Kept(met, NewTo(s))
    ensures key in s.fields ==> Kept(met + [key], KnownTo(s)) == Kept(met, KnownTo(s)) + [key]
    ensures key !in s.fields ==> s.order + Kept(met + [key], NewTo(s)) == s.order + Kept(met, NewTo(s)) + [key]
    ensures key !in s.fields ==> Kept(met + [key], KnownTo(s)) == Kept(met, KnownTo(s))
  {
    assert Front(met + [key]) == met && LastOf(met + [key]) == key;
  }

  // ---- The algebra ----

  lemma {:induction false} KeptMembers(order: seq<string>, p: string -> bool, k: string)
    ensures k in Kept(order, p) <==> k in order && p(k)
  {
    if order != [] {
      KeptMembers(Front(order), p, k);
      assert order == Front(order) + [LastOf(order)];
    }
  }

  /** Which keys an overlay has, and from which side each field comes. */
  lemma {:induction false} OverlaidField(s: Shape, t: Shape, c: Conflict, met: seq<string>, k: string)
    ensures k in Overlaid(s, t, c, met) <==> k in s.fields || (k in met && k in t.fields)
    ensures k in Overlaid(s, t, c, met) ==>
              Overlaid(s, t, c, met)[k] == if k in met && IsTaken(s, t, c, k) then t.fields[k] else s.fields[k]
  {
    if met != [] {
      OverlaidField(s, t, c, Front(met), k);
      assert met == Front(met) + [LastOf(met)];
    }
  }

  lemma OverlaidFields(s: Shape, t: Shape, c: Conflict, met: seq<string>)
    ensures forall k :: k in Overlaid(s, t, c, met) <==> k in s.fields || (k in met && k in t.fields)
    ensures forall k | k in Overlaid(s, t, c, met) ::
              Overlaid(s, t, c, met)[k] == if k in met && IsTaken(s, t, c, k) then t.fields[k] else s.fields[k]
  {
    forall k
      ensures k in Overlaid(s, t, c, met) <==> k in s.fields || (k in met && k in t.fields)
      ensures k in Overlaid(s, t, c, met) ==>
                Overlaid(s, t, c, met)[k] == if k in met && IsTaken(s, t, c, k) then t.fields[k] else s.fields[k]
    {
      OverlaidField(s, t, c, met, k);
    }
  }

  lemma {:induction false} KeptIsDistinct(order: seq<string>, p: string -> bool)
    requires Distinct(order)
    ensures Distinct(Kept(order, p))
  {
    if order != [] {
      KeptIsDistinct(Front(order), p);
      KeptMembers(Front(order), p, LastOf(order));
      assert LastOf(order) !in Front(order);
    }
  }

  lemma RestrictedIsShape(s: Shape, order: seq<string>, p: string -> bool)
    requires IsShape(s) && Distinct(order) && forall k | k in order :: k in s.fields
    ensures IsShape(Restricted(s, order, p))
  {
    KeptIsDistinct(order, p);
    forall k ensures k in Kept(order, p) <==> k in order && p(k) {
      KeptMembers(order, p, k);
    }
  }

  lemma PickedIsShape(s: Shape, m: Mask)
    requires IsShape(s) && IsMask(m)
    ensures FitsShape(m, s) ==> IsShape(Picked(s, m))
  {
    if FitsShape(m, s) {
      RestrictedIsShape(s, m.order, k => Marks(m, k));
    }
  }

  lemma AdjustedIsShape(s: Shape, m: Option<Mask>, change: Built -> Built)
    requires IsShape(s) && forall f :: IsSchema(f) ==> IsSchema(change(f))
    ensures IsShape(Adjusted(s, m, change))
  {
  }

  /** What a record of replacements must be; a key may come without one. */
  predicate IsOverrides(overrides: Shape) {
    && Distinct(overrides.order)
    && forall k | k in overrides.fields :: k in overrides.order && IsSchema(overrides.fields[k])
  }

  lemma OverriddenIsShape(s: Shape, overrides: Shape)
    requires IsShape(s) && IsOverrides(overrides)
    ensures Kept(overrides.order, NewTo(s)) == [] ==> IsShape(Merged(s, overrides, KeepRight))
  {
    if Kept(overrides.order, NewTo(s)) == [] {
      forall k | k in overrides.order ensures k in s.fields {
        KeptMembers(overrides.order, NewTo(s), k);
      }
      OverlaidFields(s, overrides, KeepRight, overrides.order);
    }
  }

  lemma MergedIsShape(s: Shape, t: Shape, c: Conflict)
    requires IsShape(s) && IsShape(t)
    ensures IsShape(Merged(s, t, c))
  {
    MergedIsKeyed(s, t, c);
    OverlaidFields(s, t, c, t.order);
  }

  lemma MergedIsKeyed(s: Shape, t: Shape, c: Conflict)
    requires IsKeyed(s) && IsKeyed(t)
    ensures IsKeyed(Merged(s, t, c))
  {
    var added := Kept(t.order, NewTo(s));
    KeptIsDistinct(t.order, NewTo(s));
    OverlaidFields(s, t, c, t.order);
    forall k ensures k in added <==> k in t.order && k !in s.fields {
      KeptMembers(t.order, NewTo(s), k);
    }
    DistinctParts(s.order, added);
  }

  lemma DistinctParts(a: seq<string>, b: seq<string>)
    requires Distinct(a) && Distinct(b) && forall k | k in b :: k !in a
    ensures Distinct(a + b)
  {
    forall i, j | 0 <= i < j < |a + b| ensures (a + b)[i] != (a + b)[j] {
      if i < |a| <= j {
        assert (a + b)[i] in a && (a + b)[j] == b[j - |a|];
      }
    }
  }

  /** How a schema is written: `object(shape)`, then any calls on it. `Tagged` stands for the modifier and metadata calls,
      which replace everything on the node but its kind. */
  datatype Building =
    | Start(shape: Shape)
    | Tagged(base: Building, mods: Modifiers, refs: seq<Refinement>, meta: Metadata)
    | WithPolicy(base: Building, unknownKeys: UnknownKeys)
    | Extending(base: Building, extension: Shape)
    | Picking(base: Building, mask: Mask)
    | Omitting(base: Building, mask: Mask)
    | MakingPartial(base: Building, keys: Option<Mask>)
    | MakingRequired(base: Building, keys: Option<Mask>)
    | Merging(base: Building, other: Building, conflict: Conflict, policy: Conflict)
    | Overriding(base: Building, overrides: Shape)

  /** Every record in a building lists each of its keys once, and holds schemas. */
  predicate IsBuilding(b: Building) {
    match b
    case Start(shape) => IsShape(shape)
    case Extending(base, extension) => IsBuilding(base) && IsShape(extension)
    case Picking(base, mask) => IsBuilding(base) && IsMask(mask)
    case Merging(base, other, _, _) => IsBuilding(base) && IsBuilding(other)
    case Overriding(base, overrides) => IsBuilding(base) && IsOverrides(overrides)
    case _ => IsBuilding(b.base)
  }

  /** Every step keeps node and parts in agreement, at every level. */
  function Build(b: Building): (r: Result<Built, ComposeError>)
    requires IsBuilding(b)
    ensures r.Ok? ==> IsObjectSchema(r.value)
  {
    if b.Start? then Ok(Composed(b.shape, Strict))
    else
      var base := Build(b.base);
      if base.Err? then base
      else
        var s := base.value;
        match b
        case Tagged(_, mods, refs, meta) => Ok(ObjectSchema(s.shape, Node(s.node.kind, mods, refs, meta)))
        case WithPolicy(_, u) => Ok(ObjectSchema(s.shape, s.node.(kind := s.node.kind.(unknownKeys := u))))
        case Extending(_, extension) => MergedIsShape(s.shape, extension, KeepLeft); ExtendResult(s, extension)
        case Picking(_, m) => PickedIsShape(s.shape, m); PickResult(s, m)
        case Omitting(_, m) => RestrictedIsShape(s.shape, s.shape.order, k => !Marks(m, k)); OmitResult(s, m)
        case MakingPartial(_, m) => AdjustedIsShape(s.shape, m, MakePartial); AdjustResult(s, m, MakePartial)
        case MakingRequired(_, m) => AdjustedIsShape(s.shape, m, MakeRequired); AdjustResult(s, m, MakeRequired)
        case Merging(_, other, c, policy) =>
          var t := Build(other);
          if t.Err? then t
          else MergedIsShape(s.shape, t.value.shape, c); MergeResult(s, t.value, c, policy)
        case Overriding(_, overrides) => OverriddenIsShape(s.shape, overrides); OverrideResult(s, overrides)
  }

  /** Merging what a mask picks with what it omits succeeds, under all policies, and restores the fields. */
  lemma PickAndOmitRestore(s: Built, m: Mask, c: Conflict, policy: Conflict)
    requires IsObjectSchema(s) && IsMask(m) && FitsShape(m, s.shape)
    ensures PickResult(s, m).Ok? && OmitResult(s, m).Ok?
    ensures IsObjectSchema(PickResult(s, m).value) && IsObjectSchema(OmitResult(s, m).value)
    ensures var r := MergeResult(PickResult(s, m).value, OmitResult(s, m).value, c, policy);
            r.Ok? && r.value.shape.fields == s.shape.fields && r.value.node.kind.unknownKeys == s.node.kind.unknownKeys
  {
    PickedIsShape(s.shape, m);
    RestrictedIsShape(s.shape, s.shape.order, k => !Marks(m, k));
    PartsRestore(s.shape, m, c);
  }

  lemma PartsRestore(s: Shape, m: Mask, c: Conflict)
    requires IsShape(s) && IsMask(m) && FitsShape(m, s)
    ensures Kept(Omitted(s, m).order, KnownTo(Picked(s, m))) == []
    ensures Merged(Picked(s, m), Omitted(s, m), c).fields == s.fields
  {
    var kept, dropped := Picked(s, m), Omitted(s, m);
    forall k ensures k in dropped.order <==> k in s.order && !Marks(m, k) {
      KeptMembers(s.order, k => !Marks(m, k), k);
    }
    NothingKept(dropped.order, KnownTo(kept));
    SplitRestores(s, kept, dropped, c);
  }

  lemma {:induction false} NothingKept(order: seq<string>, p: string -> bool)
    requires forall k | k in order :: !p(k)
    ensures Kept(order, p) == []
  {
    if order != [] {
      assert LastOf(order) in order && forall k | k in Front(order) :: k in order;
      NothingKept(Front(order), p);
    }
  }

  lemma SplitRestores(s: Shape, kept: Shape, dropped: Shape, c: Conflict)
    requires forall k :: k in s.fields <==> k in kept.fields || k in dropped.fields
    requires forall k :: !(k in kept.fields && k in dropped.fields)
    requires forall k | k in kept.fields :: kept.fields[k] == s.fields[k]
    requires forall k | k in dropped.fields :: k in dropped.order && dropped.fields[k] == s.fields[k]
    ensures Merged(kept, dropped, c).fields == s.fields
  {
    OverlaidFields(kept, dropped, c, dropped.order);
  }

  lemma AdjustTwice(s: Shape, m: Option<Mask>, first: Built -> Built, second: Built -> Built, once: Built -> Built)
    requires forall n | n in s.fields.Values :: second(first(n)) == once(n)
    ensures Adjusted(Adjusted(s, m, first), m, second) == Adjusted(s, m, once)
  {
    var twice := Adjusted(Adjusted(s, m, first), m, second).fields;
    forall k | k in s.fields ensures k in twice && twice[k] == Adjusted(s, m, once).fields[k] {
      assert s.fields[k] in s.fields.Values;
    }
    assert twice == Adjusted(s, m, once).fields;
  }

  /** `required` undoes `partial`, and `partial` undoes `required`. */
  lemma RequiredOfPartial(s: Shape, m: Option<Mask>)
    ensures Adjusted(Adjusted(s, m, MakePartial), m, MakeRequired) == Adjusted(s, m, MakeRequired)
    ensures Adjusted(Adjusted(s, m, MakeRequired), m, MakePartial) == Adjusted(s, m, MakePartial)
  {
    forall field ensures MakeRequired(MakePartial(field)) == MakeRequired(field) {
      LastAdjustmentWins(field);
    }
    AdjustTwice(s, m, MakePartial, MakeRequired, MakeRequired);
    forall field ensures MakePartial(MakeRequired(field)) == MakePartial(field) {
      LastAdjustmentWins(field);
    }
    AdjustTwice(s, m, MakeRequired, MakePartial, MakePartial);
  }

  lemma LastAdjustmentWins(field: Built)
    ensures MakeRequired(MakePartial(field)) == MakeRequired(field)
    ensures MakePartial(MakeRequired(field)) == MakePartial(field)
  {
  }

  lemma FieldsWiden(fm: Formats, n: Node, v: Value)
    ensures Accepts(fm, RequiredNode(n), v) ==> Accepts(fm, n, v)
    ensures Accepts(fm, n, v) ==> Accepts(fm, PartialNode(n), v)
  {
    var narrow, wide := RequiredNode(n), PartialNode(n);
    var base := AcceptsBase(fm, n.kind, v) && AllHold(fm, n.refs, v);
    assert AcceptsFilled(fm, narrow, v) <==> (v.Null? && n.mods.nullable) || base;
    assert AcceptsFilled(fm, wide, v) <==> v.Undefined? || (v.Null? && n.mods.nullable) || base;
    assert AcceptsFilled(fm, n, v) <==> (v.Undefined? && n.mods.optional) || (v.Null? && n.mods.nullable) || base;
    assert v.Undefined? ==> !AcceptsBase(fm, n.kind, v);
  }

  /** `required` narrows and `partial` widens, with a mask or without: a value `required` accepts, the schema accepts; an
      object the schema accepts, `partial` accepts. The schema accepts null or undefined only by modifiers of its own. */
  lemma RequiredNarrowsPartialWidens(fm: Formats, s: Built, m: Option<Mask>, v: Value)
    requires IsObjectSchema(s) && (m.Some? ==> FitsShape(m.value, s.shape))
    ensures Accepts(fm, AdjustResult(s, m, MakeRequired).value.node, v) ==> Accepts(fm, s.node, v)
    ensures v.Obj? && Accepts(fm, s.node, v) ==> Accepts(fm, AdjustResult(s, m, MakePartial).value.node, v)
  {
    RecordsNarrowAndWiden(fm, s.shape, s.node.kind.unknownKeys, m, v);
    ComposedAccepts(fm, Adjusted(s.shape, m, MakeRequired), s.node.kind.unknownKeys, v);
    ComposedAccepts(fm, Adjusted(s.shape, m, MakePartial), s.node.kind.unknownKeys, v);
    if v.Obj? {
      ObjectAccepted(fm, s.node, v);
    }
  }

  /** Modifiers and refinements of an object schema do not touch objects. */
  lemma ObjectAccepted(fm: Formats, n: Node, v: Value)
    requires v.Obj?
    ensures Accepts(fm, n, v) <==> AcceptsBase(fm, n.kind, v)
  {
    assert Filled(n.mods, v) == v && AllHold(fm, n.refs, v);
    assert AcceptsFilled(fm, n, v) <==> AcceptsBase(fm, n.kind, v);
  }

  lemma ComposedAccepts(fm: Formats, shape: Shape, u: UnknownKeys, v: Value)
    ensures Accepts(fm, Composed(shape, u).node, v) <==> v.Obj? && AcceptsBase(fm, Composed(shape, u).node.kind, v)
  {
    var n := Composed(shape, u).node;
    assert Filled(n.mods, v) == v;
    assert AcceptsFilled(fm, n, v) <==> AcceptsBase(fm, n.kind, v);
  }

  lemma RecordsNarrowAndWiden(fm: Formats, s: Shape, u: UnknownKeys, m: Option<Mask>, v: Value)
    ensures AcceptsBase(fm, Composed(Adjusted(s, m, MakeRequired), u).node.kind, v) ==>
              AcceptsBase(fm, Composed(s, u).node.kind, v)
    ensures AcceptsBase(fm, Composed(s, u).node.kind, v) ==>
              AcceptsBase(fm, Composed(Adjusted(s, m, MakePartial), u).node.kind, v)
  {
    if v.Obj? {
      forall k | k in s.fields
        ensures FieldWidens(fm, NodesOf(Adjusted(s, m, MakeRequired)), NodesOf(s), k, v)
        ensures FieldWidens(fm, NodesOf(s), NodesOf(Adjusted(s, m, MakePartial)), k, v)
      {
        FieldsWiden(fm, s.fields[k].node, Lookup(v.props, k));
      }
      RecordWidens(fm, NodesOf(Adjusted(s, m, MakeRequired)), NodesOf(s), s.order, u, v);
      RecordWidens(fm, NodesOf(s), NodesOf(Adjusted(s, m, MakePartial)), s.order, u, v);
    }
  }

  predicate FieldWidens(fm: Formats, a: map<string, Node>, b: map<string, Node>, k: string, v: Value)
    requires v.Obj?
  {
    k in a && k in b && (Accepts(fm, a[k], Lookup(v.props, k)) ==> Accepts(fm, b[k], Lookup(v.props, k)))
  }

  lemma RecordWidens(fm: Formats, a: map<string, Node>, b: map<string, Node>, order: seq<string>, u: UnknownKeys, v: Value)
    requires v.Obj? && a.Keys == b.Keys
    requires forall k | k in a :: FieldWidens(fm, a, b, k, v)
    ensures AcceptsBase(fm, ObjectOf(a, order, u), v) ==> AcceptsBase(fm, ObjectOf(b, order, u), v)
  {
  }
}
