/** The printed text of a type has the tokens of the intended type. */
module TypeLexing {
  import opened Values
  import opened JsonText
  import opened Lexing
  import opened Schema
  import opened TypeText
  import opened TypeGrammar
  import opened TypePrinting
  import opened TypeParsing
  import opened TypeDocs

  // ---- Unions ----

  lemma BarIsClosed()
    ensures ClosesAs(" | ", [Punct('|')]) && IsBreak(" | ")
  {
    assert " | " == " " + "|" + " ";
    SpacesClose(" ");
    PunctCloses('|');
    ClosedThen(" ", [], "|", [Punct('|')]);
    ClosedThen(" " + "|", [] + [Punct('|')], " ", []);
  }

  lemma BranchLexes(s: string, bs: seq<TypeTree>, next: string, t: TypeTree)
    requires bs != [] && ReadsAs(s, BranchTokens(bs)) && ReadsAs(next, Tokens(t))
    ensures ReadsAs(s + " | " + next, BranchTokens(bs + [t]))
  {
    BarIsClosed();
    BreakThen(s, BranchTokens(bs), " | ", [Punct('|')]);
    ClosedThen(s + " | ", BranchTokens(bs) + [Punct('|')], next, Tokens(t));
    assert (bs + [t])[..|bs|] == bs;
  }

  lemma BranchesHaveTokens(t: TypeTree)
    requires IsTree(t)
    ensures BranchTokens(Branches(t)) == Tokens(t)
  {
  }

  lemma OneMoreLexes(s: string, t: TypeTree, word: string)
    requires IsTree(t) && ReadsAs(s, Tokens(t)) && IsWordText(word)
    ensures ReadsAs(s + " | " + word, BranchTokens(Branches(t) + [Word(word)]))
  {
    BranchesHaveTokens(t);
    WordReads(word);
    BranchLexes(s, Branches(t), word, Word(word));
  }

  lemma OrLexes(s: string, t: TypeTree, flag: bool, word: string)
    requires IsTree(t) && ReadsAs(s, Tokens(t)) && IsWordText(word)
    ensures ReadsAs(Or(s, flag, word), Tokens(With(t, flag, word)))
  {
    if flag {
      OneMoreLexes(s, t, word);
    }
  }

  lemma SuffixesLex(s: string, t: TypeTree, nullable: bool, undefined: bool)
    requires IsTree(t) && ReadsAs(s, Tokens(t))
    ensures ReadsAs(Or(Or(s, nullable, "null"), undefined, "undefined"),
                    Tokens(With(With(t, nullable, "null"), undefined, "undefined")))
  {
    WithIsTree(t, nullable, "null");
    OrLexes(s, t, nullable, "null");
    OrLexes(Or(s, nullable, "null"), With(t, nullable, "null"), undefined, "undefined");
  }

  lemma LiteralLexes(numberText: real -> string, v: Value)
    requires IsNumberText(numberText) && IsPrimitive(v)
    ensures ReadsAs(FormatLiteral(numberText, v), Tokens(LiteralTree(numberText, v)))
  {
    match v {
      case Str(s) => StringifiedCloses(s);
      case Num(x) => WordReads(numberText(x));
      case Bool(b) => WordReads(if b then "true" else "false");
      case _ => WordReads("null");
    }
  }

  lemma {:induction false} EnumLexes(numberText: real -> string, values: seq<Json>)
    requires IsNumberText(numberText) && values != [] && forall x | x in values :: IsPrimitive(x)
    ensures ReadsAs(EnumText(numberText, values), BranchTokens(LiteralTrees(numberText, values)))
  {
    var t := LiteralTree(numberText, LastOf(values));
    LiteralLexes(numberText, LastOf(values));
    LiteralTreesStep(numberText, values);
    if |values| > 1 {
      EnumLexes(numberText, Front(values));
      BranchLexes(EnumText(numberText, Front(values)), LiteralTrees(numberText, Front(values)),
                  FormatLiteral(numberText, LastOf(values)), t);
    } else {
      OneBranch(t);
      assert LiteralTrees(numberText, values) == [t];
    }
  }

  lemma OneBranch(t: TypeTree)
    ensures BranchTokens([t]) == Tokens(t)
  {
  }

  lemma LiteralTreesStep(numberText: real -> string, values: seq<Value>)
    requires values != []
    ensures LiteralTrees(numberText, values) == LiteralTrees(numberText, Front(values)) + [LiteralTree(numberText, LastOf(values))]
  {
  }

  // ---- Arrays and objects ----

  lemma BracketsLex()
    ensures ClosesAs("[]", [Punct('['), Punct(']')]) && IsBreak("[]")
  {
    TwoPunctsClose('[', ']');
    assert "[]" == ['[', ']'];
  }

  lemma ParenthesesLex(s: string, ts: seq<Token>)
    requires ReadsAs(s, ts)
    ensures ClosesAs("(" + s + ")", [Punct('(')] + ts + [Punct(')')])
  {
    PunctCloses('(');
    PunctCloses(')');
    ClosedThen("(", [Punct('(')], s, ts);
    BreakThen("(" + s, [Punct('(')] + ts, ")", [Punct(')')]);
  }

  lemma WrappedLexes(s: string, ts: seq<Token>)
    requires ReadsAs(s, ts)
    ensures ReadsAs("(" + s + ")[]", [Punct('(')] + ts + [Punct(')')] + [Punct('['), Punct(']')])
  {
    BracketsLex();
    ParenthesesLex(s, ts);
    ClosedThen("(" + s + ")", [Punct('(')] + ts + [Punct(')')], "[]", [Punct('['), Punct(']')]);
    WrappedText(s);
  }

  lemma WrappedText(s: string)
    ensures "(" + s + ")" + "[]" == "(" + s + ")[]"
  {
  }

  lemma UnwrappedLexes(s: string, ts: seq<Token>)
    requires ReadsAs(s, ts)
    ensures ReadsAs(s + "[]", ts + [Punct('['), Punct(']')])
  {
    BracketsLex();
    BreakThen(s, ts, "[]", [Punct('['), Punct(']')]);
  }

  lemma ArrayLexes(s: string, e: TypeTree)
    requires ReadsAs(s, Tokens(e))
    ensures ReadsAs(if e.Union? then "(" + s + ")[]" else s + "[]", Tokens(ArrayType(e)))
  {
    if e.Union? {
      WrappedLexes(s, Tokens(e));
    } else {
      UnwrappedLexes(s, Tokens(e));
    }
  }

  lemma KeyLexes(key: string)
    ensures ReadsAs(FormatPropertyKey(key), [KeyToken(key)])
  {
    if IsIdentifier(key) {
      WordReads(key);
    } else {
      StringifiedCloses(key);
    }
  }

  /** The text between a key and its type. */
  lemma MarkIsClosed(optional: bool)
    ensures var mark, ts := if optional then "?" else "", if optional then [Punct('?')] else [];
            ClosesAs(mark + ": ", ts + [Punct(':')]) && IsBreak(mark + ": ")
  {
    PunctCloses('?');
    PunctCloses(':');
    SpacesClose(" ");
    ClosedThen(":", [Punct(':')], " ", []);
    assert ":" + " " == ": " && [Punct(':')] + [] == [Punct(':')];
    ClosedThen("?", [Punct('?')], ": ", [Punct(':')]);
    assert "" + ": " == ": " && [] + [Punct(':')] == [Punct(':')];
  }

  lemma HeadLexes(indent: string, m: Member)
    requires forall c | c in indent :: c == ' '
    ensures ClosesAs(indent + FormatPropertyKey(m.key) + (if m.optional then "?" else "") + ": ", Head(m))
  {
    var key, mark := FormatPropertyKey(m.key), if m.optional then "?" else "";
    var markTokens := (if m.optional then [Punct('?')] else []) + [Punct(':')];
    SpacesClose(indent);
    KeyLexes(m.key);
    MarkIsClosed(m.optional);
    ClosedThen(indent, [], key, [KeyToken(m.key)]);
    assert [] + [KeyToken(m.key)] == [KeyToken(m.key)];
    BreakThen(indent + key, [KeyToken(m.key)], mark + ": ", markTokens);
    assert indent + key + (mark + ": ") == indent + key + mark + ": ";
    assert [KeyToken(m.key)] + markTokens == Head(m);
  }

  lemma EndedLexes(s: string, ts: seq<Token>)
    requires ReadsAs(s, ts)
    ensures ClosesAs(s + ";", ts + [Punct(';')])
  {
    PunctCloses(';');
    BreakThen(s, ts, ";", [Punct(';')]);
  }

  lemma FieldParts(indent: string, key: string, optional: bool, typeExpr: string)
    ensures FieldText(indent, key, optional, typeExpr)
         == indent + FormatPropertyKey(key) + (if optional then "?" else "") + ": " + (typeExpr + ";")
  {
  }

  lemma FieldLexes(indent: string, m: Member, typeExpr: string)
    requires (forall c | c in indent :: c == ' ') && ReadsAs(typeExpr, Tokens(m.tree))
    ensures ClosesAs(FieldText(indent, m.key, m.optional, typeExpr), OneMemberTokens(m))
  {
    var head := indent + FormatPropertyKey(m.key) + (if m.optional then "?" else "") + ": ";
    HeadLexes(indent, m);
    EndedLexes(typeExpr, Tokens(m.tree));
    ClosedThen(head, Head(m), typeExpr + ";", Tokens(m.tree) + [Punct(';')]);
    FieldParts(indent, m.key, m.optional, typeExpr);
    OneMemberShape(m);
  }

  lemma OneMemberShape(m: Member)
    ensures OneMemberTokens(m) == Head(m) + (Tokens(m.tree) + [Punct(';')])
  {
  }

  lemma MoreMembers(ms: seq<Member>, m: Member)
    ensures MemberTokens(ms + [m]) == MemberTokens(ms) + OneMemberTokens(m)
  {
    assert (ms + [m])[..|ms|] == ms;
  }

  lemma LinesLex(before: string, ts: seq<Token>, line: string, us: seq<Token>)
    requires ClosesAs(before, ts) && ClosesAs(line, us)
    ensures ClosesAs(before + "\n" + line, ts + us)
  {
    SpacesClose("\n");
    ClosedThen(before, ts, "\n", []);
    assert ts + [] == ts;
    ClosedThen(before + "\n", ts, line, us);
  }

  lemma ClosingLexes(indent: string)
    requires forall c | c in indent :: c == ' '
    ensures ClosesAs(indent + "}", [Punct('}')])
  {
    PunctCloses('}');
    SpacesClose(indent);
    ClosedThen(indent, [], "}", [Punct('}')]);
    assert [] + [Punct('}')] == [Punct('}')];
  }

  lemma BracedText(lines: string, indent: string)
    ensures "{" + "\n" + lines + "\n" + (indent + "}") == "{\n" + lines + "\n" + indent + "}"
  {
  }

  lemma BracedLexes(lines: string, ts: seq<Token>, indent: string)
    requires ClosesAs(lines, ts) && forall c | c in indent :: c == ' '
    ensures ClosesAs("{\n" + lines + "\n" + indent + "}", [Punct('{')] + ts + [Punct('}')])
  {
    PunctCloses('{');
    ClosingLexes(indent);
    LinesLex("{", [Punct('{')], lines, ts);
    LinesLex("{" + "\n" + lines, [Punct('{')] + ts, indent + "}", [Punct('}')]);
    BracedText(lines, indent);
  }

  // ---- The printer ----

  /** Every description, at any depth, stays in its comment; below arrays they are balanced, for the union check. */
  predicate DocsStayComments(n: Node) {
    match n.kind
    case ArrayOf(e) => HasBalancedDocs(e) && DocsStayComments(e)
    case ObjectOf(fields, _, _) => forall k | k in fields :: StaysInComment(DescriptionOf(fields[k])) && DocsStayComments(fields[k])
    case _ => true
  }

  lemma {:induction false} TypeLexes(numberText: real -> string, n: Node, mode: Mode, depth: nat)
    requires IsNumberText(numberText) && IsPrintable(n) && DocsStayComments(n)
    ensures ReadsAs(TypeExpression(numberText, n, mode, depth), Tokens(Tree(numberText, n, mode)))
    decreases n, 3
  {
    BareLexes(numberText, n, mode, depth);
    BareTreeIsTree(numberText, n, mode);
    SuffixesLex(BareType(numberText, n, mode, depth), BareTree(numberText, n, mode), n.mods.nullable, MayBeUndefined(n.mods, mode));
  }

  lemma {:induction false} BareLexes(numberText: real -> string, n: Node, mode: Mode, depth: nat)
    requires IsNumberText(numberText) && IsPrintable(n) && DocsStayComments(n)
    ensures ReadsAs(BareType(numberText, n, mode, depth), Tokens(BareTree(numberText, n, mode)))
    decreases n, 2
  {
    match n.kind {
      case Literal(x) => LiteralLexes(numberText, x);
      case Enum(values) =>
        EnumLexes(numberText, values);
        MakeUnionTokens(LiteralTrees(numberText, values));
      case ArrayOf(e) =>
        TypeLexes(numberText, e, mode, depth);
        UnionCheckIsExact(numberText, e, mode, depth);
        ArrayLexes(TypeExpression(numberText, e, mode, depth), Tree(numberText, e, mode));
      case ObjectOf(_, order, _) => ObjectLexes(numberText, n, mode, depth);
      case _ => WordReads(BareType(numberText, n, mode, depth));
    }
  }

  lemma MakeUnionTokens(bs: seq<TypeTree>)
    requires bs != []
    ensures Tokens(MakeUnion(bs)) == BranchTokens(bs)
  {
  }

  lemma EmptyObjectLexes()
    ensures ReadsAs("{}", Tokens(ObjectType([])))
  {
    TwoPunctsClose('{', '}');
    assert "{}" == ['{', '}'] && Tokens(ObjectType([])) == [Punct('{')] + [] + [Punct('}')] == [Punct('{'), Punct('}')];
  }

  lemma {:induction false} ObjectLexes(numberText: real -> string, n: Node, mode: Mode, depth: nat)
    requires n.kind.ObjectOf?
    requires IsNumberText(numberText) && IsPrintable(n) && DocsStayComments(n)
    ensures ReadsAs(BareType(numberText, n, mode, depth), Tokens(BareTree(numberText, n, mode)))
    decreases n, 1
  {
    var order := n.kind.order;
    if order == [] {
      EmptyObjectLexes();
    } else {
      FieldLinesLex(numberText, n, order, mode, depth);
      IndentIsSpaces(depth);
      BracedLexes(FieldLines(numberText, n, order, mode, depth), MemberTokens(Members(numberText, n, order, mode)), Indent(depth));
    }
  }

  /** The descriptions of these fields stay in their comments, and so do those inside their types. */
  predicate FieldDocsStay(n: Node, keys: seq<string>)
    requires n.kind.ObjectOf? && forall k | k in keys :: k in n.kind.fields
  {
    forall k | k in keys :: StaysInComment(DescriptionOf(n.kind.fields[k])) && DocsStayComments(n.kind.fields[k])
  }

  lemma {:induction false} FieldLinesLex(numberText: real -> string, n: Node, keys: seq<string>, mode: Mode, depth: nat)
    requires n.kind.ObjectOf? && keys != [] && forall k | k in keys :: k in n.kind.fields
    requires IsNumberText(numberText) && IsPrintable(n) && FieldDocsStay(n, keys)
    ensures ClosesAs(FieldLines(numberText, n, keys, mode, depth), MemberTokens(Members(numberText, n, keys, mode)))
    decreases n, 0, |keys|, 1
  {
    var line, m := FieldLine(numberText, n, LastOf(keys), mode, depth), FieldMember(numberText, n, LastOf(keys), mode);
    assert LastOf(keys) in keys;
    FieldLineLexes(numberText, n, LastOf(keys), mode, depth);
    if |keys| > 1 {
      FieldLinesLex(numberText, n, Front(keys), mode, depth);
      LinesLex(FieldLines(numberText, n, Front(keys), mode, depth), MemberTokens(Members(numberText, n, Front(keys), mode)),
               line, OneMemberTokens(m));
    }
    MoreMembers(Members(numberText, n, Front(keys), mode), m);
  }

  lemma {:induction false} FieldLineLexes(numberText: real -> string, n: Node, key: string, mode: Mode, depth: nat)
    requires n.kind.ObjectOf? && key in n.kind.fields && IsNumberText(numberText) && IsPrintable(n)
    requires StaysInComment(DescriptionOf(n.kind.fields[key])) && DocsStayComments(n.kind.fields[key])
    ensures ClosesAs(FieldLine(numberText, n, key, mode, depth), OneMemberTokens(FieldMember(numberText, n, key, mode)))
    decreases n, 0, 0
  {
    var field, indent, m := n.kind.fields[key], Indent(depth + 1), FieldMember(numberText, n, key, mode);
    var bare, tree := BareType(numberText, field, mode, depth + 1), BareTree(numberText, field, mode);
    var typeExpr := Or(bare, field.mods.nullable, "null");
    IndentIsSpaces(depth + 1);
    DocShowsNothing(field, indent);
    BareLexes(numberText, field, mode, depth + 1);
    BareTreeIsTree(numberText, field, mode);
    OrLexes(bare, tree, field.mods.nullable, "null");
    FieldLexes(indent, m, typeExpr);
    ClosedThen(FieldDoc(field, indent), [], FieldText(indent, key, m.optional, typeExpr), OneMemberTokens(m));
    assert [] + OneMemberTokens(m) == OneMemberTokens(m);
  }

  /** Printer correctness: the text of a node whose descriptions stay in their comments reads back, whole, as the intended
      type. */
  lemma PrintedTypeReadsBack(numberText: real -> string, n: Node, mode: Mode, depth: nat)
    requires IsNumberText(numberText) && IsPrintable(n) && DocsStayComments(n)
    ensures ReadType(TypeExpression(numberText, n, mode, depth)) == Some(Tree(numberText, n, mode))
  {
    var t := Tree(numberText, n, mode);
    TypeLexes(numberText, n, mode, depth);
    TreeIsTree(numberText, n, mode);
    TypeRoundTrip(t, []);
    assert Tokens(t) + [] == Tokens(t);
  }

  // ---- Descriptions that end their comment ----

  predicate SomeLeaves(n: Node, keys: seq<string>)
    requires n.kind.ObjectOf? && forall k | k in keys :: k in n.kind.fields
  {
    exists k | k in keys :: LeavesComment(DescriptionOf(n.kind.fields[k]))
  }

  /** The types of the fields are readable, and no description shows tokens behind its comment and then opens another. */
  predicate FieldsShowNothing(n: Node, keys: seq<string>)
    requires n.kind.ObjectOf? && forall k | k in keys :: k in n.kind.fields
  {
    forall k | k in keys ::
      && DocsStayComments(n.kind.fields[k])
      && (StaysInComment(DescriptionOf(n.kind.fields[k])) || LeavesComment(DescriptionOf(n.kind.fields[k])))
  }

  lemma LastLeaves(n: Node, keys: seq<string>)
    requires n.kind.ObjectOf? && keys != [] && forall k | k in keys :: k in n.kind.fields
    requires FieldsShowNothing(n, keys)
    ensures FieldsShowNothing(n, Front(keys))
    ensures SomeLeaves(n, keys) && !SomeLeaves(n, Front(keys)) ==>
      LeavesComment(DescriptionOf(n.kind.fields[LastOf(keys)])) && FieldDocsStay(n, Front(keys))
  {
    assert keys == Front(keys) + [LastOf(keys)];
  }

  lemma {:induction false} LeavingBreaksLines(numberText: real -> string, n: Node, keys: seq<string>, mode: Mode, depth: nat)
    requires n.kind.ObjectOf? && keys != [] && IsNumberText(numberText) && IsPrintable(n)
    requires (forall k | k in keys :: k in n.kind.fields) && FieldsShowNothing(n, keys) && SomeLeaves(n, keys)
    ensures ModeAfter(Between, FieldLines(numberText, n, keys, mode, depth)) == Broken
    decreases |keys|
  {
    var line := FieldLine(numberText, n, LastOf(keys), mode, depth);
    LastLeaves(n, keys);
    if SomeLeaves(n, Front(keys)) {
      LeavingBreaksLines(numberText, n, Front(keys), mode, depth);
      LineAfterBroken(FieldLines(numberText, n, Front(keys), mode, depth), line);
    } else {
      LeavingBreaksLine(numberText, n, LastOf(keys), mode, depth);
      if |keys| > 1 {
        FieldLinesLex(numberText, n, Front(keys), mode, depth);
        NextLineBreaks(FieldLines(numberText, n, Front(keys), mode, depth), line);
      }
    }
  }

  lemma LineAfterBroken(lines: string, line: string)
    requires ModeAfter(Between, lines) == Broken
    ensures ModeAfter(Between, lines + "\n" + line) == Broken
  {
    BrokenThen(Between, lines, "\n");
    BrokenThen(Between, lines + "\n", line);
  }

  lemma NextLineBreaks(lines: string, line: string)
    requires ModeAfter(Between, lines) == Between && ModeAfter(Between, line) == Broken
    ensures ModeAfter(Between, lines + "\n" + line) == Broken
  {
    LexConcat(Between, lines + "\n", line);
    LexConcat(Between, lines, "\n");
    StepOnce(Between, '\n');
  }

  lemma LeavingBreaksLine(numberText: real -> string, n: Node, key: string, mode: Mode, depth: nat)
    requires n.kind.ObjectOf? && key in n.kind.fields && IsPrintable(n)
    requires LeavesComment(DescriptionOf(n.kind.fields[key]))
    ensures ModeAfter(Between, FieldLine(numberText, n, key, mode, depth)) == Broken
  {
    var field, indent := n.kind.fields[key], Indent(depth + 1);
    var text := FieldText(indent, key, IsOptionalField(field.mods, mode),
                          Or(BareType(numberText, field, mode, depth + 1), field.mods.nullable, "null"));
    IndentIsSpaces(depth + 1);
    DocBreaks(field, indent);
    BrokenThen(Between, FieldDoc(field, indent), text);
  }

  lemma OpeningBrace(lines: string)
    ensures ModeAfter(Between, "{\n" + lines) == ModeAfter(Between, lines)
  {
    LexConcat(Between, "{\n", lines);
    assert "{\n" == ['{', '\n'];
    StepTwice(Between, '{', '\n');
  }

  lemma BrokenBraces(lines: string, indent: string)
    requires ModeAfter(Between, lines) == Broken
    ensures ModeAfter(Between, "{\n" + lines + "\n" + indent + "}") == Broken
  {
    OpeningBrace(lines);
    BrokenThen(Between, "{\n" + lines, "\n");
    BrokenThen(Between, "{\n" + lines + "\n", indent);
    BrokenThen(Between, "{\n" + lines + "\n" + indent, "}");
  }

  lemma BrokenOr(s: string, flag: bool, word: string)
    requires ModeAfter(Between, s) == Broken
    ensures ModeAfter(Between, Or(s, flag, word)) == Broken
  {
    BrokenThen(Between, s, " | ");
    BrokenThen(Between, s + " | ", word);
  }

  lemma LeavingIsUnreadable(numberText: real -> string, n: Node, mode: Mode, depth: nat)
    requires IsPrintable(n) && n.kind.ObjectOf? && n.kind.order != []
    requires ModeAfter(Between, FieldLines(numberText, n, n.kind.order, mode, depth)) == Broken
    ensures ReadType(TypeExpression(numberText, n, mode, depth)) == None
  {
    var bare := BareType(numberText, n, mode, depth);
    BrokenBraces(FieldLines(numberText, n, n.kind.order, mode, depth), Indent(depth));
    BrokenOr(bare, n.mods.nullable, "null");
    BrokenOr(Or(bare, n.mods.nullable, "null"), MayBeUndefined(n.mods, mode), "undefined");
  }

  /** An object whose descriptions show no tokens reads back if and only if each of them stays in its comment; if one does
      not, the text is no type at all. */
  lemma ReadsBackIffDocsStay(numberText: real -> string, n: Node, mode: Mode, depth: nat)
    requires IsNumberText(numberText) && IsPrintable(n) && n.kind.ObjectOf? && n.kind.order != []
    requires (forall k | k in n.kind.fields :: k in n.kind.order) && FieldsShowNothing(n, n.kind.order)
    ensures var r := ReadType(TypeExpression(numberText, n, mode, depth));
            && (r == Some(Tree(numberText, n, mode)) <==> forall k | k in n.kind.order :: StaysInComment(DescriptionOf(n.kind.fields[k])))
            && (r == None <==> SomeLeaves(n, n.kind.order))
  {
    if SomeLeaves(n, n.kind.order) {
      LeavingBreaksLines(numberText, n, n.kind.order, mode, depth);
      LeavingIsUnreadable(numberText, n, mode, depth);
    } else {
      PrintedTypeReadsBack(numberText, n, mode, depth);
    }
  }
}
