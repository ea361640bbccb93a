/** The printer is right: its text reads back as the intended type, parenthesised where it has to be. */
module TypePrinting {
  import opened Values
  import opened Folds
  import opened JsonText
  import opened Lexing
  import opened Schema
  import opened TypeText
  import opened TypeGrammar

  // ---- The intended type ----

  /** Numbers print as words. */
  ghost predicate IsNumberText(numberText: real -> string) {
    forall x :: IsWordText(numberText(x))
  }

  function Branches(t: TypeTree): seq<TypeTree> {
    if t.Union? then t.branches else [t]
  }

  function With(t: TypeTree, flag: bool, word: string): TypeTree {
    if flag then MakeUnion(Branches(t) + [Word(word)]) else t
  }

  function LiteralTree(numberText: real -> string, v: Value): TypeTree {
    match v
    case Str(s) => TextLiteral(s)
    case Num(x) => Word(numberText(x))
    case Bool(b) => Word(if b then "true" else "false")
    case _ => Word("null")
  }

  function LiteralTrees(numberText: real -> string, values: seq<Value>): seq<TypeTree> {
    seq(|values|, i requires 0 <= i < |values| => LiteralTree(numberText, values[i]))
  }

  /** The type of a value: `null` and `undefined` join where the mode lets them be. */
  function Tree(numberText: real -> string, n: Node, mode: Mode): TypeTree
    requires IsPrintable(n)
    decreases n, 1
  {
    var nullable := With(BareTree(numberText, n, mode), n.mods.nullable, "null");
    With(nullable, MayBeUndefined(n.mods, mode), "undefined")
  }

  function BareTree(numberText: real -> string, n: Node, mode: Mode): TypeTree
    requires IsPrintable(n)
    decreases n, 0
  {
    match n.kind
    case StringKind => Word("string")
    case NumberKind => Word("number")
    case BooleanKind => Word("boolean")
    case Literal(x) => LiteralTree(numberText, x)
    case Enum(values) => MakeUnion(LiteralTrees(numberText, values))
    case ArrayOf(e) => ArrayType(Tree(numberText, e, mode))
    case ObjectOf(_, order, _) => ObjectType(Members(numberText, n, order, mode))
  }

  function Members(numberText: real -> string, n: Node, keys: seq<string>, mode: Mode): seq<Member>
    requires n.kind.ObjectOf? && IsPrintable(n) && forall k | k in keys :: k in n.kind.fields
    decreases n, 0, |keys|
  {
    if keys == [] then []
    else Members(numberText, n, Front(keys), mode) + [FieldMember(numberText, n, LastOf(keys), mode)]
  }

  /** In field position optionality is the key's. */
  function FieldMember(numberText: real -> string, n: Node, key: string, mode: Mode): Member
    requires n.kind.ObjectOf? && IsPrintable(n) && key in n.kind.fields
    decreases n, 0, 0
  {
    var field := n.kind.fields[key];
    Member(key, IsOptionalField(field.mods, mode), With(BareTree(numberText, field, mode), field.mods.nullable, "null"))
  }

  lemma WithIsTree(t: TypeTree, flag: bool, word: string)
    requires IsTree(t)
    ensures IsTree(With(t, flag, word))
  {
    var bs := Branches(t) + [Word(word)];
    assert forall b | b in bs :: b in Branches(t) || b == Word(word);
  }

  lemma {:induction false} TreeIsTree(numberText: real -> string, n: Node, mode: Mode)
    requires IsPrintable(n)
    ensures IsTree(Tree(numberText, n, mode))
    decreases n, 1
  {
    BareTreeIsTree(numberText, n, mode);
    var nullable := With(BareTree(numberText, n, mode), n.mods.nullable, "null");
    WithIsTree(BareTree(numberText, n, mode), n.mods.nullable, "null");
    WithIsTree(nullable, MayBeUndefined(n.mods, mode), "undefined");
  }

  lemma {:induction false} BareTreeIsTree(numberText: real -> string, n: Node, mode: Mode)
    requires IsPrintable(n)
    ensures IsTree(BareTree(numberText, n, mode))
    decreases n, 0
  {
    match n.kind {
      case ArrayOf(e) => TreeIsTree(numberText, e, mode);
      case ObjectOf(_, order, _) => MembersAreTrees(numberText, n, order, mode);
      case _ =>
    }
  }

  lemma {:induction false} MembersAreTrees(numberText: real -> string, n: Node, keys: seq<string>, mode: Mode)
    requires n.kind.ObjectOf? && IsPrintable(n) && forall k | k in keys :: k in n.kind.fields
    ensures forall m | m in Members(numberText, n, keys, mode) :: IsTree(m.tree)
    decreases n, 0, |keys|
  {
    if keys != [] {
      var field := n.kind.fields[LastOf(keys)];
      MembersAreTrees(numberText, n, Front(keys), mode);
      BareTreeIsTree(numberText, field, mode);
      WithIsTree(BareTree(numberText, field, mode), field.mods.nullable, "null");
    }
  }

  // ---- The union scan over printed text ----

  /** Scanning `s` outside strings, at depth `d`, changes nothing. */
  predicate IsNeutral(d: nat, s: string) {
    Scan(Scanning(d, false, false), s) == Scanning(d, false, false)
  }

  /** Scanning the text of a type: found at the top level, or nothing changed. */
  predicate ScansAs(d: nat, s: string, union: bool) {
    Scan(Scanning(d, false, false), s) == if d == 0 && union then Found else Scanning(d, false, false)
  }

  lemma NeutralConcat(d: nat, a: string, b: string)
    requires IsNeutral(d, a) && IsNeutral(d, b)
    ensures IsNeutral(d, a + b)
  {
    FoldConcat(ScanChar, Scanning(d, false, false), a, b);
  }

  predicate IsQuiet(s: string) {
    forall c | c in s :: c !in "\"{([})]|"
  }

  /** Below the top level the scan comes out of `s` as it went in: its quotes are paired, and its brackets cancel out. Depths
      above the length of `s` are all alike. */
  predicate IsBalanced(s: string) {
    forall d | 0 < d <= |s| + 1 :: IsNeutral(d, s)
  }

  /** The description of every object field, at any depth, is balanced. */
  predicate HasBalancedDocs(n: Node) {
    match n.kind
    case ArrayOf(e) => HasBalancedDocs(e)
    case ObjectOf(fields, _, _) =>
      forall k | k in fields ::
        && HasBalancedDocs(fields[k])
        && (fields[k].meta.description.Some? ==> IsBalanced(fields[k].meta.description.value))
    case _ => true
  }

  /** Deep enough, the scan does not depend on the depth it starts at. */
  lemma {:induction false} ScanShifted(d: nat, k: nat, s: string)
    requires d > |s|
    ensures var end := Scan(Scanning(d, false, false), s);
            && end.Scanning? && end.depth >= d - |s|
            && Scan(Scanning(d + k, false, false), s) == end.(depth := end.depth + k)
  {
    if s != "" {
      ScanShifted(d, k, Front(s));
    }
  }

  lemma BalancedIsNeutral(d: nat, s: string)
    requires IsBalanced(s) && d > 0
    ensures IsNeutral(d, s)
  {
    if d > |s| + 1 {
      assert IsNeutral(|s| + 1, s);
      ScanShifted(|s| + 1, d - |s| - 1, s);
    }
  }

  lemma {:induction false} QuietIsNeutral(d: nat, s: string)
    requires IsQuiet(s)
    ensures IsNeutral(d, s)
  {
    if s != "" {
      assert LastOf(s) in s && forall c | c in Front(s) :: c in s;
      QuietIsNeutral(d, Front(s));
    }
  }

  /** Brackets around a balanced text, and balanced texts side by side, are balanced. */
  lemma BalancedBuilds(open: char, a: string, close: char, b: string)
    requires open in "{([" && close in "})]" && IsBalanced(a) && IsBalanced(b)
    ensures IsBalanced([open] + a + [close]) && IsBalanced(a + b)
  {
    forall d: nat | d > 0 ensures IsNeutral(d, [open] + a + [close]) && IsNeutral(d, a + b) {
      BalancedIsNeutral(d, a);
      BalancedIsNeutral(d, b);
      BalancedIsNeutral(d + 1, a);
      ScanBracketed(d, open, a, close);
      NeutralConcat(d, a, b);
    }
  }

  /** A text in quotes, itself without quotes and backslashes, is balanced whatever its brackets. */
  lemma QuotedIsBalanced(s: string)
    requires forall c | c in s :: c != '"' && c != '\\'
    ensures IsBalanced("\"" + s + "\"")
  {
    forall d: nat | d > 0 ensures IsNeutral(d, "\"" + s + "\"") {
      var out := Scanning(d, false, false);
      FoldConcat(ScanChar, out, "\"" + s, "\"");
      FoldConcat(ScanChar, out, "\"", s);
      ScanOne(out, '"');
      ScanPlainText(d, s);
      ScanOne(Scanning(d, true, false), '"');
    }
  }

  lemma {:induction false} DocLinesAreNeutral(d: nat, lines: seq<string>, indent: string)
    requires lines != [] && (forall l | l in lines :: IsNeutral(d, l)) && forall c | c in indent :: c == ' '
    ensures IsNeutral(d, DocLines(lines, indent))
  {
    assert LastOf(lines) in lines;
    QuietIsNeutral(d, indent + " * ");
    NeutralConcat(d, indent + " * ", LastOf(lines));
    if |lines| > 1 {
      assert forall l | l in Front(lines) :: l in lines;
      DocLinesAreNeutral(d, Front(lines), indent);
      LinesAreNeutral(d, DocLines(Front(lines), indent), indent + " * " + LastOf(lines));
    }
  }

  lemma DocIsNeutral(d: nat, field: Node, indent: string)
    requires field.meta.description.Some? ==> IsNeutral(d, field.meta.description.value)
    requires forall c | c in indent :: c == ' '
    ensures IsNeutral(d, FieldDoc(field, indent))
  {
    var described := if field.meta.description.Some? && field.meta.description.value != ""
                     then [field.meta.description.value] else [];
    var lines := described + if field.meta.deprecated == Some(true) then ["@deprecated"] else [];
    if lines != [] {
      QuietIsNeutral(d, "@deprecated");
      assert forall l | l in lines :: l in described || l == "@deprecated";
      DocLinesAreNeutral(d, lines, indent);
      CommentIsNeutral(d, DocLines(lines, indent), indent);
    }
  }

  lemma CommentIsNeutral(d: nat, inner: string, indent: string)
    requires IsNeutral(d, inner) && forall c | c in indent :: c == ' '
    ensures IsNeutral(d, indent + "/**\n" + inner + "\n" + indent + " */\n")
  {
    QuietIsNeutral(d, indent + "/**\n");
    QuietIsNeutral(d, "\n" + indent + " */\n");
    NeutralConcat(d, indent + "/**\n", inner);
    NeutralConcat(d, indent + "/**\n" + inner, "\n" + indent + " */\n");
    DocEnd(indent + "/**\n" + inner, indent);
  }

  lemma DocEnd(doc: string, indent: string)
    ensures doc + ("\n" + indent + " */\n") == doc + "\n" + indent + " */\n"
  {
  }

  lemma ScanOne(s: Scanner, c: char)
    ensures Scan(s, [c]) == ScanChar(s, c)
  {
    assert [c] != "" && Front([c]) == "" && LastOf([c]) == c;
    assert Fold(ScanChar, s, Front([c])) == s;
  }

  lemma ScanTwo(s: Scanner, c: char, e: char)
    ensures Scan(s, [c, e]) == ScanChar(ScanChar(s, c), e)
  {
    assert [c, e] == [c] + [e];
    FoldConcat(ScanChar, s, [c], [e]);
    ScanOne(s, c);
    ScanOne(ScanChar(s, c), e);
  }

  lemma {:induction false} ScanPlainText(d: nat, s: string)
    requires forall c | c in s :: c != '"' && c != '\\'
    ensures Scan(Scanning(d, true, false), s) == Scanning(d, true, false)
  {
    if s != "" {
      assert LastOf(s) in s && forall c | c in Front(s) :: c in s;
      ScanPlainText(d, Front(s));
    }
  }

  lemma ScanEscape(d: nat, c: char)
    ensures Scan(Scanning(d, true, false), EscapeChar(c)) == Scanning(d, true, false)
  {
    var s, e := Scanning(d, true, false), EscapeChar(c);
    if e[0] == '\\' {
      assert e == e[..2] + e[2..] && e[..2] == [e[0], e[1]];
      FoldConcat(ScanChar, s, e[..2], e[2..]);
      ScanTwo(s, e[0], e[1]);
      ScanPlainText(d, e[2..]);
    } else {
      ScanOne(s, c);
    }
  }

  lemma {:induction false} ScanEscaped(d: nat, s: string)
    ensures Scan(Scanning(d, true, false), Escaped(s)) == Scanning(d, true, false)
  {
    if s != "" {
      ScanEscaped(d, Front(s));
      FoldConcat(ScanChar, Scanning(d, true, false), Escaped(Front(s)), EscapeChar(LastOf(s)));
      ScanEscape(d, LastOf(s));
    }
  }

  lemma StringifiedIsNeutral(d: nat, s: string)
    ensures IsNeutral(d, Stringified(s))
  {
    var out := Scanning(d, false, false);
    FoldConcat(ScanChar, out, "\"" + Escaped(s), "\"");
    FoldConcat(ScanChar, out, "\"", Escaped(s));
    ScanOne(out, '"');
    ScanEscaped(d, s);
    ScanOne(Scanning(d, true, false), '"');
  }

  /** One more branch makes a union. */
  lemma ScanOr(d: nat, s: string, union: bool, flag: bool, word: string)
    requires ScansAs(d, s, union) && IsNeutral(d, word)
    ensures ScansAs(d, Or(s, flag, word), union || flag)
  {
    if flag {
      var out := Scanning(d, false, false);
      FoldConcat(ScanChar, out, s + " | ", word);
      FoldConcat(ScanChar, out, s, " | ");
      ScanBar(d);
      FoundStays(" | ");
      FoundStays(word);
    }
  }

  lemma ScanBar(d: nat)
    ensures ScansAs(d, " | ", true)
  {
    var out := Scanning(d, false, false);
    assert " | " == " |" + " ";
    FoldConcat(ScanChar, out, " |", " ");
    ScanTwo(out, ' ', '|');
    ScanOne(Scan(out, " |"), ' ');
  }

  lemma LiteralIsNeutral(numberText: real -> string, d: nat, v: Value)
    requires IsNumberText(numberText) && IsPrimitive(v)
    ensures IsNeutral(d, FormatLiteral(numberText, v))
  {
    if v.Str? {
      StringifiedIsNeutral(d, v.text);
    } else {
      assert v.Num? ==> IsWordText(numberText(v.number));
      QuietIsNeutral(d, FormatLiteral(numberText, v));
    }
  }

  lemma {:induction false} ScanEnum(numberText: real -> string, d: nat, values: seq<Json>)
    requires IsNumberText(numberText) && values != [] && forall x | x in values :: IsPrimitive(x)
    ensures ScansAs(d, EnumText(numberText, values), |values| > 1)
  {
    LiteralIsNeutral(numberText, d, LastOf(values));
    if |values| > 1 {
      ScanEnum(numberText, d, Front(values));
      ScanOr(d, EnumText(numberText, Front(values)), |values| > 2, true, FormatLiteral(numberText, LastOf(values)));
    }
  }

  /** Inside a bracket pair everything is one level deeper. */
  lemma ScanBracketed(d: nat, open: char, s: string, close: char)
    requires open in "{([" && close in "})]" && IsNeutral(d + 1, s)
    ensures IsNeutral(d, [open] + s + [close])
  {
    var out := Scanning(d, false, false);
    FoldConcat(ScanChar, out, [open] + s, [close]);
    FoldConcat(ScanChar, out, [open], s);
    ScanOne(out, open);
    ScanOne(Scanning(d + 1, false, false), close);
  }

  lemma ScanArray(d: nat, element: string, union: bool)
    requires ScansAs(d, element, union) && ScansAs(d + 1, element, union)
    ensures IsNeutral(d, if union then "(" + element + ")[]" else element + "[]")
  {
    ScanBracketed(d, '[', "", ']');
    assert "[" + "" + "]" == "[]";
    if union {
      ScanBracketed(d, '(', element, ')');
      NeutralConcat(d, "(" + element + ")", "[]");
      assert "(" + element + ")" + "[]" == "(" + element + ")[]";
    } else {
      NeutralConcat(d, element, "[]");
    }
  }

  lemma {:induction false} IndentIsSpaces(depth: nat)
    ensures forall c | c in Indent(depth) :: c == ' '
  {
    if depth > 0 {
      IndentIsSpaces(depth - 1);
    }
  }

  lemma ScanBraced(d: nat, lines: string, indent: string)
    requires IsNeutral(d + 1, lines) && forall c | c in indent :: c == ' '
    ensures IsNeutral(d, "{\n" + lines + "\n" + indent + "}")
  {
    QuietIsNeutral(d + 1, "\n");
    QuietIsNeutral(d + 1, indent);
    NeutralConcat(d + 1, "\n", lines);
    NeutralConcat(d + 1, "\n" + lines, "\n");
    NeutralConcat(d + 1, "\n" + lines + "\n", indent);
    ScanBracketed(d, '{', "\n" + lines + "\n" + indent, '}');
    assert "{" + ("\n" + lines + "\n" + indent) + "}" == "{\n" + lines + "\n" + indent + "}";
  }

  lemma KeyIsNeutral(d: nat, key: string)
    ensures IsNeutral(d, FormatPropertyKey(key))
  {
    if IsIdentifier(key) {
      QuietIsNeutral(d, key);
    } else {
      StringifiedIsNeutral(d, key);
    }
  }

  lemma FieldTextIsNeutral(d: nat, indent: string, key: string, optional: bool, typeExpr: string)
    requires (forall c | c in indent :: c == ' ') && IsNeutral(d, typeExpr)
    ensures IsNeutral(d, FieldText(indent, key, optional, typeExpr))
  {
    var mark := if optional then "?" else "";
    QuietIsNeutral(d, indent);
    KeyIsNeutral(d, key);
    QuietIsNeutral(d, mark);
    QuietIsNeutral(d, ": ");
    QuietIsNeutral(d, ";");
    NeutralConcat(d, indent, FormatPropertyKey(key));
    NeutralConcat(d, indent + FormatPropertyKey(key), mark);
    NeutralConcat(d, indent + FormatPropertyKey(key) + mark, ": ");
    NeutralConcat(d, indent + FormatPropertyKey(key) + mark + ": ", typeExpr);
    NeutralConcat(d, indent + FormatPropertyKey(key) + mark + ": " + typeExpr, ";");
  }

  lemma WithIsUnion(t: TypeTree, flag: bool, word: string)
    requires IsTree(t)
    ensures With(t, flag, word).Union? <==> t.Union? || flag
  {
  }

  /** `HasTopLevelUnion` is right about printed types, and brackets hide the rest. */
  lemma {:induction false} ScanType(numberText: real -> string, n: Node, mode: Mode, depth: nat, d: nat)
    requires IsNumberText(numberText) && IsPrintable(n) && HasBalancedDocs(n)
    ensures ScansAs(d, TypeExpression(numberText, n, mode, depth), Tree(numberText, n, mode).Union?)
    decreases n, 1
  {
    var bare, tree := BareType(numberText, n, mode, depth), BareTree(numberText, n, mode);
    ScanBare(numberText, n, mode, depth, d);
    BareTreeIsTree(numberText, n, mode);
    ScanSuffixes(d, bare, tree, n.mods.nullable, MayBeUndefined(n.mods, mode));
  }

  lemma ScanSuffixes(d: nat, bare: string, tree: TypeTree, nullable: bool, undefined: bool)
    requires IsTree(tree) && ScansAs(d, bare, tree.Union?)
    ensures ScansAs(d, Or(bare, nullable, "null"), With(tree, nullable, "null").Union?)
    ensures ScansAs(d, Or(Or(bare, nullable, "null"), undefined, "undefined"),
                    With(With(tree, nullable, "null"), undefined, "undefined").Union?)
  {
    QuietIsNeutral(d, "null");
    QuietIsNeutral(d, "undefined");
    WithIsTree(tree, nullable, "null");
    WithIsUnion(tree, nullable, "null");
    WithIsUnion(With(tree, nullable, "null"), undefined, "undefined");
    ScanOr(d, bare, tree.Union?, nullable, "null");
    ScanOr(d, Or(bare, nullable, "null"), tree.Union? || nullable, undefined, "undefined");
  }

  lemma {:induction false} ScanBare(numberText: real -> string, n: Node, mode: Mode, depth: nat, d: nat)
    requires IsNumberText(numberText) && IsPrintable(n) && HasBalancedDocs(n)
    ensures ScansAs(d, BareType(numberText, n, mode, depth), BareTree(numberText, n, mode).Union?)
    decreases n, 0
  {
    match n.kind {
      case Literal(x) => LiteralIsNeutral(numberText, d, x);
      case Enum(values) => ScanEnum(numberText, d, values);
      case ArrayOf(e) =>
        ScanType(numberText, e, mode, depth, 0);
        ScanType(numberText, e, mode, depth, d);
        ScanType(numberText, e, mode, depth, d + 1);
        ScanArray(d, TypeExpression(numberText, e, mode, depth), Tree(numberText, e, mode).Union?);
      case ObjectOf(_, order, _) =>
        if order == [] {
          ScanBracketed(d, '{', "", '}');
          assert "{" + "" + "}" == "{}";
        } else {
          ScanLines(numberText, n, order, mode, depth, d + 1);
          IndentIsSpaces(depth);
          ScanBraced(d, FieldLines(numberText, n, order, mode, depth), Indent(depth));
        }
      case _ => QuietIsNeutral(d, BareType(numberText, n, mode, depth));
    }
  }

  lemma LinesAreNeutral(d: nat, before: string, line: string)
    requires IsNeutral(d, before) && IsNeutral(d, line)
    ensures IsNeutral(d, before + "\n" + line)
  {
    QuietIsNeutral(d, "\n");
    NeutralConcat(d, before, "\n");
    NeutralConcat(d, before + "\n", line);
  }

  lemma {:induction false} ScanLines(numberText: real -> string, n: Node, keys: seq<string>, mode: Mode, depth: nat, d: nat)
    requires n.kind.ObjectOf? && keys != [] && forall k | k in keys :: k in n.kind.fields
    requires IsNumberText(numberText) && IsPrintable(n) && HasBalancedDocs(n) && d > 0
    ensures IsNeutral(d, FieldLines(numberText, n, keys, mode, depth))
    decreases n, 0, |keys|
  {
    ScanLine(numberText, n, LastOf(keys), mode, depth, d);
    if |keys| > 1 {
      ScanLines(numberText, n, Front(keys), mode, depth, d);
      LinesAreNeutral(d, FieldLines(numberText, n, Front(keys), mode, depth), FieldLine(numberText, n, LastOf(keys), mode, depth));
    }
  }

  lemma {:induction false} ScanLine(numberText: real -> string, n: Node, key: string, mode: Mode, depth: nat, d: nat)
    requires n.kind.ObjectOf? && key in n.kind.fields
    requires IsNumberText(numberText) && IsPrintable(n) && HasBalancedDocs(n) && d > 0
    ensures IsNeutral(d, FieldLine(numberText, n, key, mode, depth))
    decreases n, 0, 0
  {
    var field := n.kind.fields[key];
    var bare, tree := BareType(numberText, field, mode, depth + 1), BareTree(numberText, field, mode);
    IndentIsSpaces(depth + 1);
    if field.meta.description.Some? {
      BalancedIsNeutral(d, field.meta.description.value);
    }
    DocIsNeutral(d, field, Indent(depth + 1));
    ScanBare(numberText, field, mode, depth + 1, d);
    BareTreeIsTree(numberText, field, mode);
    ScanSuffixes(d, bare, tree, field.mods.nullable, false);
    var text := FieldText(Indent(depth + 1), key, IsOptionalField(field.mods, mode), Or(bare, field.mods.nullable, "null"));
    FieldTextIsNeutral(d, Indent(depth + 1), key, IsOptionalField(field.mods, mode), Or(bare, field.mods.nullable, "null"));
    NeutralConcat(d, FieldDoc(field, Indent(depth + 1)), text);
  }

  /** The structural check is right on printed types with balanced descriptions. */
  lemma UnionCheckIsExact(numberText: real -> string, n: Node, mode: Mode, depth: nat)
    requires IsNumberText(numberText) && IsPrintable(n) && HasBalancedDocs(n)
    ensures HasTopLevelUnion(TypeExpression(numberText, n, mode, depth)) <==> Tree(numberText, n, mode).Union?
  {
    ScanType(numberText, n, mode, depth, 0);
  }
}
