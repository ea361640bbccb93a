/** The validate-only variant of a schema: no defaults, and optional where a default was. */
module StripDefaults {
  import opened Values
  import opened Schema
  import opened DiffSoundness

  function StripOwn(m: Modifiers): Modifiers {
    if m.default.Some? then Modifiers(true, m.nullable, None) else m
  }

  function Strip(n: Node): Node {
    var kind := match n.kind
      case ArrayOf(e) => ArrayOf(Strip(e))
      case ObjectOf(fields, order, u) => ObjectOf(map k | k in fields :: Strip(fields[k]), order, u)
      case k => k;
    n.(kind := kind, mods := StripOwn(n.mods))
  }

  /** The transform as it runs: children first, then the node's own default. */
  method StripDefaultsForValidate(n: Node) returns (r: Node)
    requires WellKeyed(n)
    ensures r == Strip(n)
    decreases n
  {
    var kind := n.kind;
    match n.kind {
      case ArrayOf(e) =>
        var element := StripDefaultsForValidate(e);
        kind := ArrayOf(element);
      case ObjectOf(_, order, u) =>
        var next := StripFields(n.kind);
        assert next == Strip(n).kind.fields;
        kind := ObjectOf(next, order, u);
      case _ =>
    }
    r := n.(kind := kind, mods := StripOwn(n.mods));
  }

  /** The loop over the fields. */
  method StripFields(kind: Kind) returns (next: map<string, Node>)
    requires kind.ObjectOf? && (forall k | k in kind.fields :: WellKeyed(kind.fields[k]))
    requires (forall k | k in kind.order :: k in kind.fields) && forall k | k in kind.fields :: k in kind.order
    ensures next == map k | k in kind.fields :: Strip(kind.fields[k])
    decreases kind
  {
    next := map[];
    for i := 0 to |kind.order|
      invariant forall k :: k in next <==> k in kind.order[..i]
      invariant forall k | k in next :: k in kind.fields && next[k] == Strip(kind.fields[k])
    {
      var child := StripDefaultsForValidate(kind.fields[kind.order[i]]);
      next := next[kind.order[i] := child];
    }
    assert kind.order[..|kind.order|] == kind.order;
  }

  predicate DefaultFree(n: Node) {
    && n.mods.default.None?
    && match n.kind
       case ArrayOf(e) => DefaultFree(e)
       case ObjectOf(fields, _, _) => forall k | k in fields :: DefaultFree(fields[k])
       case _ => true
  }

  lemma {:induction false} StripIsDefaultFree(n: Node)
    ensures DefaultFree(Strip(n))
  {
    match n.kind {
      case ArrayOf(e) => StripIsDefaultFree(e);
      case ObjectOf(fields, _, _) =>
        forall k | k in fields ensures DefaultFree(Strip(fields[k])) {
          StripIsDefaultFree(fields[k]);
        }
      case _ =>
    }
  }

  /** Only defaults are stripped: a default-free schema is its own validate variant, and no other is. */
  lemma {:induction false} StripFixesDefaultFree(n: Node)
    ensures Strip(n) == n <==> DefaultFree(n)
  {
    match n.kind {
      case ArrayOf(e) => StripFixesDefaultFree(e);
      case ObjectOf(fields, _, _) =>
        forall k | k in fields ensures Strip(fields[k]) == fields[k] <==> DefaultFree(fields[k]) {
          StripFixesDefaultFree(fields[k]);
        }
        var next := Strip(n).kind.fields;
        assert forall k | k in fields :: next[k] == Strip(fields[k]);
        assert (forall k | k in fields :: DefaultFree(fields[k])) ==> next == fields;
      case _ =>
    }
  }

  lemma StripIdempotent(n: Node)
    ensures Strip(Strip(n)) == Strip(n)
  {
    StripIsDefaultFree(n);
    StripFixesDefaultFree(Strip(n));
  }

  // ---- Validate against parse ----

  /** Every default in the schema is accepted by the node that carries it. */
  predicate DefaultsAccepted(fm: Formats, n: Node) {
    && DefaultAccepted(fm, n)
    && match n.kind
       case ArrayOf(e) => DefaultsAccepted(fm, e)
       case ObjectOf(fields, _, _) => forall k | k in fields :: DefaultsAccepted(fm, fields[k])
       case _ => true
  }

  /** Validation never rejects what parsing accepts. */
  lemma {:induction false} ParsedIsValid(fm: Formats, n: Node, v: Value)
    requires Accepts(fm, n, v)
    ensures Accepts(fm, Strip(n), v)
    decreases n
  {
    if !(v.Undefined? && n.mods.default.Some?) && AcceptsBody(fm, n, v) {
      BaseParsedIsValid(fm, n, v);
    }
  }

  lemma {:induction false} BaseParsedIsValid(fm: Formats, n: Node, v: Value)
    requires AcceptsBody(fm, n, v)
    ensures AcceptsBody(fm, Strip(n), v)
    decreases n, 0
  {
    match n.kind {
      case ArrayOf(e) =>
        forall x | x in v.items ensures Accepts(fm, Strip(e), x) {
          ParsedIsValid(fm, e, x);
        }
      case ObjectOf(fields, _, _) =>
        forall k | k in fields ensures Accepts(fm, Strip(fields[k]), Lookup(v.props, k)) {
          ParsedIsValid(fm, fields[k], Lookup(v.props, k));
        }
      case _ =>
    }
    assert AcceptsBase(fm, Strip(n).kind, v);
  }

  lemma {:induction false} ValidIsParsed(fm: Formats, n: Node, v: Value)
    requires DefaultsAccepted(fm, n)
    requires Accepts(fm, Strip(n), v)
    ensures Accepts(fm, n, v)
    decreases n
  {
    var s := Strip(n);
    if AcceptsBody(fm, s, v) {
      match n.kind {
        case ArrayOf(e) =>
          forall x | x in v.items ensures Accepts(fm, e, x) {
            ValidIsParsed(fm, e, x);
          }
        case ObjectOf(fields, _, _) =>
          forall k | k in fields ensures Accepts(fm, fields[k], Lookup(v.props, k)) {
            assert s.kind.fields[k] == Strip(fields[k]);
            ValidIsParsed(fm, fields[k], Lookup(v.props, k));
          }
        case _ =>
      }
      assert AcceptsBase(fm, n.kind, v);
      assert !AcceptsBase(fm, n.kind, Undefined);
    }
  }

  /** A default its node rejects shows: some value validates that does not parse. */
  lemma {:induction false} BadDefaultShows(fm: Formats, n: Node) returns (v: Value)
    requires Populated(fm, n) && !DefaultsAccepted(fm, n)
    ensures Accepts(fm, Strip(n), v) && !Accepts(fm, n, v)
  {
    if !DefaultAccepted(fm, n) {
      v := Undefined;
    } else if n.kind.ArrayOf? {
      var xs: seq<Value> :| xs != [] && AcceptsBody(fm, n, Arr(xs));
      BaseParsedIsValid(fm, n, Arr(xs));
      var x := BadDefaultShows(fm, n.kind.element);
      ArrayWitness(fm, Strip(n), n, xs, x);
      v := Arr(xs[0 := x]);
    } else {
      var o: map<string, Value> :| AcceptsBody(fm, n, Obj(o));
      BaseParsedIsValid(fm, n, Obj(o));
      var key :| key in n.kind.fields && !DefaultsAccepted(fm, n.kind.fields[key]);
      var x := BadDefaultShows(fm, n.kind.fields[key]);
      ObjectWitness(fm, Strip(n), n, o, o[key := x], key);
      v := Obj(o[key := x]);
    }
  }

  /** `safeParse` of the compiled `n` succeeds on `v`. */
  predicate Parses(fm: Formats, n: Node, v: Value) {
    Parse(fm, n, v).Some?
  }

  /** `validate` and `parse` agree on every input exactly when every default is accepted by its own node. */
  lemma ValidateAgreesIffDefaultsAccepted(fm: Formats, n: Node)
    requires Populated(fm, n)
    ensures (forall v :: Parses(fm, Strip(n), v) <==> Parses(fm, n, v)) <==> DefaultsAccepted(fm, n)
  {
    if DefaultsAccepted(fm, n) {
      forall v ensures Parses(fm, Strip(n), v) <==> Parses(fm, n, v) {
        ParseSucceedsIffAccepted(fm, Strip(n), v);
        ParseSucceedsIffAccepted(fm, n, v);
        if Accepts(fm, n, v) {
          ParsedIsValid(fm, n, v);
        } else if Accepts(fm, Strip(n), v) {
          ValidIsParsed(fm, n, v);
        }
      }
    } else {
      var v := BadDefaultShows(fm, n);
      ParseSucceedsIffAccepted(fm, Strip(n), v);
      ParseSucceedsIffAccepted(fm, n, v);
      assert Parses(fm, Strip(n), v) && !Parses(fm, n, v);
    }
  }
}
