/** The emitter as it runs: each step writes its keywords into the object under construction. */
module FragmentWriter {
  import opened Values
  import opened Schema
  import opened Fragment

  /** `numParam(params.value)`. */
  function NumParam(p: Params): Result<Setting, EmitError> {
    if p.Bound? then Ok(Amount(p.value)) else Err(NotNumeric)
  }

  class KeywordObject {
    var keys: Keys

    constructor (keys: Keys)
      ensures this.keys == keys
    {
      this.keys := keys;
    }

    /** `out[kw] = numParam(params.value)`. */
    method SetAmount(kw: Keyword, p: Params) returns (error: Option<EmitError>)
      modifies this
      ensures error == if p.Bound? then None else Some(NotNumeric)
      ensures keys == if p.Bound? then old(keys)[kw := Amount(p.value)] else old(keys)
    {
      var amount := NumParam(p);
      if amount.Err? {
        return Some(amount.error);
      }
      keys := keys[kw := amount.value];
      error := None;
    }

    method ApplyPortableRefinement(r: Refinement) returns (error: Option<EmitError>)
      modifies this
      ensures error == RefinementError(r)
      ensures keys == if error.None? then old(keys) + Settings(r) else old(keys)
    {
      error := None;
      match r.name {
        case MinLength => error := SetAmount(MinLengthKey, r.params);
        case MaxLength => error := SetAmount(MaxLengthKey, r.params);
        case Length =>
          var amount := NumParam(r.params);
          if amount.Err? {
            return Some(amount.error);
          }
          keys := keys[MinLengthKey := amount.value];
          keys := keys[MaxLengthKey := amount.value];
        case Regex =>
          if |Flags(r.params)| > 0 {
            return Some(RegexFlags);
          }
          keys := keys[PatternKey := Text(Source(r.params))];
        case Email => keys := keys[FormatKey := Format(EmailFormat)];
        case Uuid => keys := keys[FormatKey := Format(UuidFormat)];
        case Url => keys := keys[FormatKey := Format(UriFormat)];
        case Int => keys := keys[TypeKey := OneType(IntegerType)];
        case Min => error := SetAmount(MinimumKey, r.params);
        case Max => error := SetAmount(MaximumKey, r.params);
        case Gt => error := SetAmount(ExclusiveMinimumKey, r.params);
        case Lt => error := SetAmount(ExclusiveMaximumKey, r.params);
        case MultipleOf => error := SetAmount(MultipleOfKey, r.params);
        case MinItems => error := SetAmount(MinItemsKey, r.params);
        case MaxItems => error := SetAmount(MaxItemsKey, r.params);
      }
    }

    method ApplyPortableRefinements(refs: seq<Refinement>) returns (error: Option<EmitError>)
      modifies this
      ensures match Refined(old(keys), refs)
              case Err(e) => error == Some(e)
              case Ok(after) => error == None && keys == after
    {
      for i := 0 to |refs|
        invariant Refined(old(keys), refs[..i]) == Ok(keys)
      {
        assert Front(refs[..i + 1]) == refs[..i];
        error := ApplyPortableRefinement(refs[i]);
        if error.Some? {
          ErrorSticks(old(keys), refs, i);
          return;
        }
      }
      assert refs[..|refs|] == refs;
      error := None;
    }

    method ApplyUnknownKeys(u: UnknownKeys)
      modifies this
      ensures keys == old(keys) + UnknownKeysSettings(u)
    {
      match u {
        case Strict => keys := keys[AdditionalPropertiesKey := Flag(false)];
        case Passthrough => keys := keys[AdditionalPropertiesKey := Flag(true)];
        case StripUnknown =>
          keys := keys[AdditionalPropertiesKey := Flag(true)];
          keys := keys[StripKey := Flag(true)];
      }
    }

    method ApplyDescription(meta: Metadata)
      modifies this
      ensures keys == Described(old(keys), meta)
    {
      if meta.description.Some? && meta.description.value != "" {
        keys := keys[DescriptionKey := Text(meta.description.value)];
      }
      if meta.deprecated == Some(true) {
        keys := keys[DeprecatedKey := Flag(true)];
      }
    }

    method ApplyNullability(m: Modifiers)
      modifies this
      ensures keys == if m.nullable then Nulled(old(keys)) else old(keys)
    {
      if !m.nullable {
        return;
      }
      if TypeKey in keys {
        match keys[TypeKey] {
          case TypeList(ts) =>
            if NullType !in ts {
              keys := keys[TypeKey := TypeList(ts + [NullType])];
            }
          case OneType(t) => keys := keys[TypeKey := TypeList([t, NullType])];
          case _ =>
        }
        return;
      }
      if EnumKey in keys && keys[EnumKey].Choices? {
        var values := keys[EnumKey].values;
        if Null !in values {
          keys := keys[EnumKey := Choices(values + [Null])];
        }
        return;
      }
      if ConstKey in keys {
        var value := keys[ConstKey];
        keys := keys - {ConstKey};
        keys := keys[AnyOfKey := Alternatives([Fragment(map[ConstKey := value]), Fragment(map[TypeKey := OneType(NullType)])])];
      }
    }

    method ApplyDefault(m: Modifiers)
      modifies this
      ensures keys == Defaulted(old(keys), m)
    {
      if m.default.None? {
        return;
      }
      keys := keys[DefaultKey := Exactly(m.default.value)];
      keys := keys[DefaultAppliedByKey := Text("runtime")];
    }
  }

  /** The first refinement that throws decides the error. */
  lemma {:induction false} ErrorSticks(keys: Keys, refs: seq<Refinement>, i: nat)
    requires i < |refs| && Refined(keys, refs[..i]).Ok? && RefinementError(refs[i]).Some?
    ensures Refined(keys, refs) == Err(RefinementError(refs[i]).value)
    decreases |refs|
  {
    if i < |refs| - 1 {
      assert Front(refs)[..i] == refs[..i];
      ErrorSticks(keys, Front(refs), i);
    } else {
      assert Front(refs) == refs[..i];
    }
  }

  lemma {:induction false} FieldErrorSticks(kind: Kind, order: seq<string>, i: nat)
    requires kind.ObjectOf? && WellKeyedKind(kind) && forall k | k in order :: k in kind.fields
    requires i < |order| && EmittedFields(kind, order[..i]).Ok? && Emitted(kind.fields[order[i]]).Err?
    ensures EmittedFields(kind, order) == Err(Emitted(kind.fields[order[i]]).error)
    decreases |order|
  {
    if i < |order| - 1 {
      assert Front(order)[..i] == order[..i];
      FieldErrorSticks(kind, Front(order), i);
    } else {
      assert Front(order) == order[..i];
    }
  }

  method EmitSchemaFragment(n: Node) returns (r: Result<Fragment, EmitError>)
    requires WellKeyed(n)
    ensures r == Emitted(n)
    decreases n
  {
    var bare := EmitBareType(n.kind);
    if bare.Err? {
      return Err(bare.error);
    }
    var base := new KeywordObject(bare.value);
    var error := base.ApplyPortableRefinements(n.refs);
    if error.Some? {
      return Err(error.value);
    }
    base.ApplyDescription(n.meta);
    base.ApplyNullability(n.mods);
    base.ApplyDefault(n.mods);
    r := Ok(Fragment(base.keys));
  }

  method EmitBareType(kind: Kind) returns (r: Result<Keys, EmitError>)
    requires WellKeyedKind(kind)
    ensures r == EmittedBase(kind)
    decreases kind, 1
  {
    match kind {
      case StringKind => r := Ok(map[TypeKey := OneType(StringType)]);
      case NumberKind => r := Ok(map[TypeKey := OneType(NumberType)]);
      case BooleanKind => r := Ok(map[TypeKey := OneType(BooleanType)]);
      case Literal(x) => r := Ok(map[ConstKey := Exactly(x)]);
      case Enum(values) =>
        if |values| == 0 {
          return Err(EmptyEnum);
        }
        r := Ok(map[EnumKey := Choices(values)]);
      case ArrayOf(e) =>
        var element := EmitSchemaFragment(e);
        if element.Err? {
          return Err(element.error);
        }
        r := Ok(map[TypeKey := OneType(ArrayType), ItemsKey := Items(element.value)]);
      case ObjectOf(_, _, _) => r := EmitObject(kind);
    }
  }

  method EmitObject(kind: Kind) returns (r: Result<Keys, EmitError>)
    requires kind.ObjectOf? && WellKeyedKind(kind)
    ensures r == EmittedBase(kind)
    decreases kind, 0
  {
    var order := kind.order;
    var properties: map<string, Fragment>, required: seq<string> := map[], [];
    for i := 0 to |order|
      invariant EmittedFields(kind, order[..i]) == Ok(properties)
      invariant required == RequiredKeys(kind.fields, order[..i])
    {
      assert Front(order[..i + 1]) == order[..i];
      var field := kind.fields[order[i]];
      var f := EmitSchemaFragment(field);
      if f.Err? {
        FieldErrorSticks(kind, order, i);
        return Err(f.error);
      }
      properties := properties[order[i] := f.value];
      if IsObjectRequired(field) {
        required := required + [order[i]];
      }
    }
    assert order[..|order|] == order;
    var out := new KeywordObject(map[TypeKey := OneType(ObjectType), PropertiesKey := Properties(properties)]);
    if |required| > 0 {
      out.keys := out.keys[RequiredKey := Names(required)];
    }
    out.ApplyUnknownKeys(kind.unknownKeys);
    r := Ok(out.keys);
  }
}
