/** When the printer's union check is right, and when a description misleads it. */
module TypeLimits {
  import opened Values
  import opened Folds
  import opened JsonText
  import opened Schema
  import opened TypeText
  import opened TypeGrammar
  import opened TypePrinting
  import opened TypeDocs

  // ---- Any node: what the scan must have seen before the bars of the modifiers ----

  /** No character that the scan reacts to, inside strings or outside. */
  predicate IsInert(s: string) {
    forall c | c in s :: c !in "\"\\{([})]|"
  }

  /** A pending escape is used up by the next character. */
  function Settled(s: Scanner): Scanner {
    if s.Scanning? then s.(escape := false) else s
  }

  lemma {:induction false} InertSettles(s: Scanner, t: string)
    requires IsInert(t) && t != ""
    ensures Scan(s, t) == Settled(s)
  {
    assert LastOf(t) in t && forall c | c in Front(t) :: c in t;
    if |t| > 1 {
      InertSettles(s, Front(t));
    } else {
      assert t == [LastOf(t)];
      ScanOne(s, LastOf(t));
    }
  }

  lemma {:induction false} EscapesAreInStrings(s: string)
    ensures Scan(OUTSIDE, s).Scanning? && Scan(OUTSIDE, s).escape ==> Scan(OUTSIDE, s).inString
  {
    if s != "" {
      EscapesAreInStrings(Front(s));
    }
  }

  /** Where a bar at the end of a text is found: after a union, or outside everything. */
  predicate SeesBar(s: Scanner) {
    s.Found? || s == OUTSIDE
  }

  lemma BarIsSeenIff(bare: string, word: string)
    requires IsInert(word) && word != ""
    ensures var s, t := Scan(OUTSIDE, bare), Scan(OUTSIDE, bare + " | " + word);
            t == if SeesBar(s) then Found else Settled(s)
  {
    var s := Scan(OUTSIDE, bare);
    EscapesAreInStrings(bare);
    FoldConcat(ScanChar, OUTSIDE, bare + " | ", word);
    FoldConcat(ScanChar, OUTSIDE, bare, " | ");
    assert " | " == " |" + " ";
    FoldConcat(ScanChar, s, " |", " ");
    ScanTwo(s, ' ', '|');
    ScanOne(Scan(s, " |"), ' ');
    InertSettles(Scan(s, " | "), word);
  }

  /** The modifiers put a bar behind the bare text. */
  predicate AddsBranch(n: Node, mode: Mode) {
    n.mods.nullable || MayBeUndefined(n.mods, mode)
  }

  predicate IsRight(numberText: real -> string, n: Node, mode: Mode, depth: nat)
    requires IsPrintable(n)
  {
    HasTopLevelUnion(TypeExpression(numberText, n, mode, depth)) == Tree(numberText, n, mode).Union?
  }

  /** For every node, whatever its descriptions: behind the bare text the check is right exactly when the scan has found a
      union or is outside everything; where there is no bar to come, exactly when it has found a union if there is one. */
  lemma UnionCheckIsRightIff(numberText: real -> string, n: Node, mode: Mode, depth: nat)
    requires IsPrintable(n)
    ensures var s := Scan(OUTSIDE, BareType(numberText, n, mode, depth));
            IsRight(numberText, n, mode, depth) <==>
              if AddsBranch(n, mode) then SeesBar(s) else s.Found? == BareTree(numberText, n, mode).Union?
  {
    BarsAreSeenIff(BareType(numberText, n, mode, depth), n.mods.nullable, MayBeUndefined(n.mods, mode));
    TreeIsUnionIff(numberText, n, mode);
  }

  lemma BarsAreSeenIff(bare: string, nullable: bool, undefined: bool)
    ensures var s := Scan(OUTSIDE, bare);
            HasTopLevelUnion(Or(Or(bare, nullable, "null"), undefined, "undefined")) <==>
              if nullable || undefined then SeesBar(s) else s.Found?
  {
    BarIsSeenIff(bare, "null");
    BarIsSeenIff(Or(bare, nullable, "null"), "undefined");
  }

  lemma TreeIsUnionIff(numberText: real -> string, n: Node, mode: Mode)
    requires IsPrintable(n)
    ensures Tree(numberText, n, mode).Union? <==> BareTree(numberText, n, mode).Union? || AddsBranch(n, mode)
  {
    var tree := BareTree(numberText, n, mode);
    BareTreeIsTree(numberText, n, mode);
    WithIsTree(tree, n.mods.nullable, "null");
    WithIsUnion(tree, n.mods.nullable, "null");
    WithIsUnion(With(tree, n.mods.nullable, "null"), MayBeUndefined(n.mods, mode), "undefined");
  }

  // ---- Flat objects: the condition on the descriptions themselves ----

  /** Fields with plain keys and plain types; their text has nothing the scan reacts to, but for the descriptions. */
  predicate IsFlat(n: Node) {
    && n.kind.ObjectOf? && IsPrintable(n) && n.kind.order != []
    && forall k | k in n.kind.order :: IsIdentifier(k) && IsPlainField(n.kind.fields[k])
  }

  predicate IsPlainField(field: Node) {
    (field.kind.StringKind? || field.kind.NumberKind? || field.kind.BooleanKind?) && !field.mods.nullable
  }

  /** Scanning the descriptions one after the other. */
  function DocScan(fields: map<string, Node>, keys: seq<string>, s: Scanner): Scanner
    requires forall k | k in keys :: k in fields
  {
    if keys == [] then s else Settled(Scan(DocScan(fields, Front(keys), s), DescriptionOf(fields[LastOf(keys)])))
  }

  lemma DocScanSettled(fields: map<string, Node>, keys: seq<string>, s: Scanner)
    requires Settled(s) == s && forall k | k in keys :: k in fields
    ensures Settled(DocScan(fields, keys, s)) == DocScan(fields, keys, s)
  {
  }

  lemma ScanAround(s: Scanner, before: string, inner: string, after: string)
    requires IsInert(before) && before != "" && IsInert(after) && after != ""
    ensures Scan(s, before + inner + after) == Settled(Scan(Settled(s), inner))
  {
    FoldConcat(ScanChar, s, before + inner, after);
    FoldConcat(ScanChar, s, before, inner);
    InertSettles(s, before);
    InertSettles(Scan(Settled(s), inner), after);
  }

  lemma UndescribedDoc(field: Node, indent: string)
    requires DescriptionOf(field) == "" && forall c | c in indent :: c == ' '
    ensures IsInert(FieldDoc(field, indent))
  {
    if field.meta.deprecated == Some(true) {
      var only := ["@deprecated"];
      assert [] + only == only && DocLines(only, indent) == indent + " * " + "@deprecated";
      assert IsInert(indent) && IsInert("/**\n") && IsInert(" * ") && IsInert("@deprecated") && IsInert("\n") && IsInert(" */\n");
    } else {
      assert FieldDoc(field, indent) == "";
    }
  }

  lemma PlainFieldText(indent: string, key: string, optional: bool, typeExpr: string)
    requires IsIdentifier(key) && IsInert(typeExpr) && forall c | c in indent :: c == ' '
    ensures IsInert(FieldText(indent, key, optional, typeExpr))
  {
    assert IsInert(indent) && IsInert(key);
    InertConcat(indent, key);
    InertConcat(indent + key, if optional then "?" else "");
    InertConcat(indent + key + (if optional then "?" else ""), ": ");
    InertConcat(indent + key + (if optional then "?" else "") + ": ", typeExpr);
    InertConcat(indent + key + (if optional then "?" else "") + ": " + typeExpr, ";");
  }

  lemma InertConcat(a: string, b: string)
    requires IsInert(a) && IsInert(b)
    ensures IsInert(a + b)
  {
  }

  lemma PlainTypeText(numberText: real -> string, field: Node, mode: Mode, depth: nat)
    requires IsPlainField(field) && IsPrintable(field)
    ensures IsInert(Or(BareType(numberText, field, mode, depth), field.mods.nullable, "null"))
  {
  }

  lemma ScanFlatLine(numberText: real -> string, n: Node, key: string, mode: Mode, depth: nat, s: Scanner)
    requires IsFlat(n) && key in n.kind.order && Settled(s) == s
    ensures Scan(s, FieldLine(numberText, n, key, mode, depth)) == Settled(Scan(s, DescriptionOf(n.kind.fields[key])))
  {
    var field, indent := n.kind.fields[key], Indent(depth + 1);
    var optional := IsOptionalField(field.mods, mode);
    var typeExpr := Or(BareType(numberText, field, mode, depth + 1), field.mods.nullable, "null");
    IndentIsSpaces(depth + 1);
    PlainTypeText(numberText, field, mode, depth + 1);
    PlainFieldText(indent, key, optional, typeExpr);
    ScanDocumented(s, field, indent, FieldText(indent, key, optional, typeExpr));
  }

  lemma ScanDocumented(s: Scanner, field: Node, indent: string, text: string)
    requires Settled(s) == s && IsInert(text) && text != "" && forall c | c in indent :: c == ' '
    ensures Scan(s, FieldDoc(field, indent) + text) == Settled(Scan(s, DescriptionOf(field)))
  {
    if DescriptionOf(field) == "" {
      UndescribedDoc(field, indent);
      InertConcat(FieldDoc(field, indent), text);
      InertSettles(s, FieldDoc(field, indent) + text);
    } else {
      DescribedDoc(field, indent);
      Reassociated(indent + "/**\n" + indent + " * " + DescriptionOf(field), DocTail(field, indent), text);
      TailIsInert(field, indent);
      InertConcat(DocTail(field, indent), text);
      ScanAround(s, indent + "/**\n" + indent + " * ", DescriptionOf(field), DocTail(field, indent) + text);
    }
  }

  lemma TailIsInert(field: Node, indent: string)
    requires forall c | c in indent :: c == ' '
    ensures IsInert(DocTail(field, indent)) && IsInert(indent + "/**\n" + indent + " * ")
  {
  }

  lemma Reassociated(a: string, b: string, c: string)
    ensures a + b + c == a + (b + c)
  {
  }

  lemma {:induction false} ScanFlatLines(numberText: real -> string, n: Node, keys: seq<string>, mode: Mode, depth: nat, s: Scanner)
    requires IsFlat(n) && keys != [] && Settled(s) == s && forall k | k in keys :: k in n.kind.order
    ensures Scan(s, FieldLines(numberText, n, keys, mode, depth)) == DocScan(n.kind.fields, keys, s)
  {
    var last, before := LastOf(keys), DocScan(n.kind.fields, Front(keys), s);
    var line := FieldLine(numberText, n, last, mode, depth);
    assert last in keys && forall k | k in Front(keys) :: k in keys;
    ScanFlatLine(numberText, n, last, mode, depth, before);
    if |keys| > 1 {
      ScanFlatLines(numberText, n, Front(keys), mode, depth, s);
      DocScanSettled(n.kind.fields, Front(keys), s);
      ScanNextLine(s, FieldLines(numberText, n, Front(keys), mode, depth), before, line);
    }
  }

  lemma ScanNextLine(s: Scanner, lines: string, before: Scanner, line: string)
    requires Scan(s, lines) == before && Settled(before) == before
    ensures Scan(s, lines + "\n" + line) == Scan(before, line)
  {
    FoldConcat(ScanChar, s, lines + "\n", line);
    FoldConcat(ScanChar, s, lines, "\n");
    InertSettles(before, "\n");
  }

  lemma ScanBraces(lines: string, indent: string, docs: Scanner)
    requires Scan(Scanning(1, false, false), lines) == docs && Settled(docs) == docs && forall c | c in indent :: c == ' '
    ensures Scan(OUTSIDE, "{\n" + lines + "\n" + indent + "}") == ScanChar(docs, '}')
  {
    FoldConcat(ScanChar, OUTSIDE, "{\n" + lines + "\n" + indent, "}");
    FoldConcat(ScanChar, OUTSIDE, "{\n" + lines + "\n", indent);
    FoldConcat(ScanChar, OUTSIDE, "{\n" + lines, "\n");
    FoldConcat(ScanChar, OUTSIDE, "{\n", lines);
    ScanTwo(OUTSIDE, '{', '\n');
    InertSettles(docs, "\n");
    if indent != "" {
      InertSettles(docs, indent);
    }
    ScanOne(docs, '}');
  }

  /** The scan over a flat object: into the braces, over the descriptions, out again. */
  lemma ScanFlat(numberText: real -> string, n: Node, mode: Mode, depth: nat)
    requires IsFlat(n)
    ensures Scan(OUTSIDE, BareType(numberText, n, mode, depth)) ==
            ScanChar(DocScan(n.kind.fields, n.kind.order, Scanning(1, false, false)), '}')
  {
    var docs := DocScan(n.kind.fields, n.kind.order, Scanning(1, false, false));
    IndentIsSpaces(depth);
    ScanFlatLines(numberText, n, n.kind.order, mode, depth, Scanning(1, false, false));
    ScanBraces(FieldLines(numberText, n, n.kind.order, mode, depth), Indent(depth), docs);
  }

  /** The descriptions leave the scan inside the braces, or have closed them once, and in no string. */
  predicate LeavesBraces(s: Scanner) {
    s == Scanning(1, false, false) || s == Scanning(0, false, false)
  }

  /** On flat objects the check is right if and only if the descriptions, scanned one after the other from inside the braces,
      show no bar of their own; or, where a bar is to come, show one or lead out of the braces again. */
  lemma FlatCheckIsRightIff(numberText: real -> string, n: Node, mode: Mode, depth: nat)
    requires IsFlat(n)
    ensures var docs := DocScan(n.kind.fields, n.kind.order, Scanning(1, false, false));
            IsRight(numberText, n, mode, depth) <==>
              if AddsBranch(n, mode) then docs.Found? || LeavesBraces(docs) else !docs.Found?
  {
    UnionCheckIsRightIff(numberText, n, mode, depth);
    ScanFlat(numberText, n, mode, depth);
    DocScanSettled(n.kind.fields, n.kind.order, Scanning(1, false, false));
  }

  const UNTAGGED := Metadata(None, None, None, None)
  const INCHES := Node(StringKind, Modifiers(false, false, None), [], UNTAGGED.(description := Some("5\" or less")))
  const MAYBE_SIZE := Node(ObjectOf(map["a" := INCHES], ["a"], Strict), Modifiers(true, false, None), [], UNTAGGED)

  lemma OneFieldIsFlat(n: Node, key: string, field: Node)
    requires n.kind.ObjectOf? && n.kind.order == [key] && n.kind.fields == map[key := field]
    requires IsIdentifier(key) && IsPlainField(field)
    ensures IsFlat(n)
  {
    assert forall k | k in n.kind.order :: k == key;
  }

  lemma QuoteOpens(before: string, after: string)
    requires IsInert(before) && before != "" && IsInert(after) && after != ""
    ensures Scan(Scanning(1, false, false), before + "\"" + after) == Scanning(1, true, false)
  {
    var inside := Scanning(1, false, false);
    FoldConcat(ScanChar, inside, before + "\"", after);
    FoldConcat(ScanChar, inside, before, "\"");
    InertSettles(inside, before);
    ScanOne(inside, '"');
    InertSettles(Scanning(1, true, false), after);
  }

  lemma OneDocScan(key: string, field: Node, s: Scanner)
    ensures DocScan(map[key := field], [key], s) == Settled(Scan(s, DescriptionOf(field)))
  {
    assert Front([key]) == [] && LastOf([key]) == key;
  }

  lemma InchesScan()
    ensures Scan(Scanning(1, false, false), DescriptionOf(INCHES)) == Scanning(1, true, false)
  {
    assert "5\" or less" == "5" + "\"" + " or less";
    QuoteOpens("5", " or less");
  }

  /** A quote in a field description opens a string that never ends, and hides the union after it. */
  lemma QuoteInDocMisleads(numberText: real -> string, mode: Mode)
    ensures IsPrintable(MAYBE_SIZE) && Tree(numberText, MAYBE_SIZE, mode).Union?
    ensures !HasTopLevelUnion(TypeExpression(numberText, MAYBE_SIZE, mode, 0))
  {
    InchesScan();
    OneDocScan("a", INCHES, Scanning(1, false, false));
    OneFieldIsFlat(MAYBE_SIZE, "a", INCHES);
    FlatCheckIsRightIff(numberText, MAYBE_SIZE, mode, 0);
  }
}
