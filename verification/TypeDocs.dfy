/** The doc comments of object fields, and text whose comments do not count. */
module TypeDocs {
  import opened Values
  import opened JsonText
  import opened Lexing
  import opened Schema
  import opened TypeText
  import opened TypeGrammar

  // ---- The text of a doc comment ----

  function DescriptionOf(field: Node): string {
    if field.meta.description.Some? then field.meta.description.value else ""
  }

  /** The text after a description, up to the end of its comment. */
  function DocTail(field: Node, indent: string): string {
    (if field.meta.deprecated == Some(true) then "\n" + indent + " * @deprecated" else "") + "\n" + indent + " */\n"
  }

  lemma DescribedDoc(field: Node, indent: string)
    requires DescriptionOf(field) != ""
    ensures FieldDoc(field, indent) == indent + "/**\n" + indent + " * " + DescriptionOf(field) + DocTail(field, indent)
  {
    var d := DescriptionOf(field);
    if field.meta.deprecated == Some(true) {
      TwoDocLines(d, "@deprecated", indent);
      DeprecatedDoc(indent, d);
    } else {
      assert [d] + [] == [d];
      PlainDoc(indent, d);
    }
  }

  lemma TwoDocLines(first: string, second: string, indent: string)
    ensures DocLines([first] + [second], indent) == indent + " * " + first + "\n" + (indent + " * " + second)
  {
    var lines := [first] + [second];
    assert Front(lines) == [first] && LastOf(lines) == second;
    assert DocLines([first], indent) == indent + " * " + first;
  }

  lemma PlainDoc(indent: string, d: string)
    ensures indent + "/**\n" + (indent + " * " + d) + "\n" + indent + " */\n"
         == indent + "/**\n" + indent + " * " + d + ("\n" + indent + " */\n")
  {
  }

  lemma DeprecatedDoc(indent: string, d: string)
    ensures indent + "/**\n" + (indent + " * " + d + "\n" + (indent + " * " + "@deprecated")) + "\n" + indent + " */\n"
         == indent + "/**\n" + indent + " * " + d + ("\n" + indent + " * @deprecated" + "\n" + indent + " */\n")
  {
  }

  // ---- Text whose comments do not count ----

  /** `s` is over, and its tokens are `ts`, comments aside. */
  predicate ClosesAs(s: string, ts: seq<Token>) {
    ModeAfter(Between, s) == Between && Code(TokensOf(Between, s)) == ts
  }

  /** The tokens of `s` are `ts`, comments aside; the last may be a word still open at its end. */
  predicate ReadsAs(s: string, ts: seq<Token>) {
    Lex(s).Some? && Code(Lex(s).value) == ts
  }

  lemma {:induction false} CodeConcat(a: seq<Token>, b: seq<Token>)
    ensures Code(a + b) == Code(a) + Code(b)
  {
    if b == [] {
      assert a + b == a;
    } else {
      assert Front(a + b) == a + Front(b) && LastOf(a + b) == LastOf(b);
      CodeConcat(a, Front(b));
    }
  }

  lemma ClosedThen(a: string, ta: seq<Token>, b: string, tb: seq<Token>)
    requires ClosesAs(a, ta)
    ensures ClosesAs(b, tb) ==> ClosesAs(a + b, ta + tb)
    ensures ReadsAs(b, tb) ==> ReadsAs(a + b, ta + tb)
  {
    var before := TokensOf(Between, a);
    ClosedConcat(a, before, b, TokensOf(Between, b));
    CodeConcat(before, TokensOf(Between, b));
    if Lex(b).Some? {
      ClosedConcat(a, before, b, Lex(b).value);
      CodeConcat(before, Lex(b).value);
    }
  }

  lemma BreakThen(a: string, ta: seq<Token>, b: string, tb: seq<Token>)
    requires ReadsAs(a, ta) && IsBreak(b)
    ensures ClosesAs(b, tb) ==> ClosesAs(a + b, ta + tb)
    ensures ReadsAs(b, tb) ==> ReadsAs(a + b, ta + tb)
  {
    var before := Lex(a).value;
    BreakConcat(a, before, b, TokensOf(Between, b));
    CodeConcat(before, TokensOf(Between, b));
    if Lex(b).Some? {
      BreakConcat(a, before, b, Lex(b).value);
      CodeConcat(before, Lex(b).value);
    }
  }

  lemma OneCode(t: Token)
    requires !t.CommentToken?
    ensures Code([t]) == [t]
  {
    assert Front([t]) == [] && LastOf([t]) == t;
  }

  lemma PunctCloses(c: char)
    requires IsPunct(c)
    ensures ClosesAs([c], [Punct(c)]) && IsBreak([c])
  {
    PunctIsClosed(c);
    OneCode(Punct(c));
  }

  lemma TwoPunctsClose(c: char, d: char)
    requires IsPunct(c) && IsPunct(d)
    ensures ClosesAs([c, d], [Punct(c), Punct(d)]) && IsBreak([c, d])
  {
    PunctCloses(c);
    PunctCloses(d);
    ClosedThen([c], [Punct(c)], [d], [Punct(d)]);
    assert [c] + [d] == [c, d] && [Punct(c)] + [Punct(d)] == [Punct(c), Punct(d)];
  }

  lemma SpacesClose(s: string)
    requires forall c | c in s :: IsSpace(c)
    ensures ClosesAs(s, [])
  {
    SpacesAreClosed(s);
  }

  lemma WordReads(w: string)
    requires IsWordText(w)
    ensures ReadsAs(w, [WordToken(w)])
  {
    WordLexes(w);
    OneCode(WordToken(w));
  }

  lemma StringifiedCloses(s: string)
    ensures ClosesAs(Stringified(s), [TextToken(s)]) && ReadsAs(Stringified(s), [TextToken(s)])
  {
    StringifiedIsClosed(s);
    OneCode(TextToken(s));
  }

  // ---- Inside a comment ----

  /** The description ends inside the comment it was put in, and shows no token on the way. */
  predicate StaysInComment(d: string) {
    ModeAfter(InComment(false), d).InComment? && Code(TokensOf(InComment(false), d)) == []
  }

  /** What a text without the end of a comment does inside one. */
  lemma {:induction false} InsideComment(star: bool, s: string)
    requires !(star && s != "" && s[0] == '/')
    requires forall i | 0 <= i < |s| - 1 :: !(s[i] == '*' && s[i + 1] == '/')
    ensures ModeAfter(InComment(star), s) == InComment(if s == "" then star else LastOf(s) == '*')
    ensures TokensOf(InComment(star), s) == []
  {
    if s != "" {
      var before := Front(s);
      assert forall i | 0 <= i < |before| :: before[i] == s[i];
      InsideComment(star, before);
      assert before != "" ==> s[|s| - 2] == LastOf(before) && s[|s| - 2 + 1] == LastOf(s);
    }
  }

  /** A description without the end of its comment stays inside it. */
  lemma NoEndStays(d: string)
    requires forall i | 0 <= i < |d| - 1 :: !(d[i] == '*' && d[i + 1] == '/')
    ensures StaysInComment(d)
  {
    InsideComment(false, d);
  }

  lemma CommentOpens(indent: string)
    requires forall c | c in indent :: c == ' '
    ensures ModeAfter(Between, indent + "/**\n" + indent + " * ") == InComment(false)
    ensures TokensOf(Between, indent + "/**\n" + indent + " * ") == []
  {
    var inside := "*\n" + indent + " * ";
    SpacesAreClosed(indent);
    StepTwice(Between, '/', '*');
    InsideComment(false, inside);
    QuietConcat(Between, indent, Between, "/*");
    QuietConcat(Between, indent + "/*", InComment(false), inside);
    assert indent + "/*" + inside == indent + "/**\n" + indent + " * ";
  }

  lemma StarSlash()
    ensures ModeAfter(InComment(false), ['*', '/']) == Between && TokensOf(InComment(false), ['*', '/']) == [CommentToken]
  {
    StepTwice(InComment(false), '*', '/');
    assert [] + [CommentToken] == [CommentToken];
  }

  lemma MarkText()
    ensures "*/\n" == ['*', '/'] + ['\n']
  {
  }

  lemma EndMark()
    ensures ModeAfter(InComment(false), "*/\n") == Between && TokensOf(InComment(false), "*/\n") == [CommentToken]
  {
    StarSlash();
    MarkText();
    LexConcat(InComment(false), ['*', '/'], ['\n']);
    StepOnce(Between, '\n');
    assert [CommentToken] + [] == [CommentToken];
  }

  lemma NoSlashNoEnd(s: string)
    requires '/' !in s
    ensures forall i | 0 <= i < |s| :: s[i] != '/'
  {
    assert forall i | 0 <= i < |s| :: s[i] in s;
  }

  /** The tail of a comment: text without a slash that ends in a space, and the end. */
  lemma CommentCloses(star: bool, s: string)
    requires '/' !in s && s != "" && LastOf(s) == ' '
    ensures ModeAfter(InComment(star), s + "*/\n") == Between && TokensOf(InComment(star), s + "*/\n") == [CommentToken]
  {
    NoSlashNoEnd(s);
    InsideComment(star, s);
    EndMark();
    LexConcat(InComment(star), s, "*/\n");
  }

  lemma TailCloses(star: bool, field: Node, indent: string)
    requires forall c | c in indent :: c == ' '
    ensures ModeAfter(InComment(star), DocTail(field, indent)) == Between
    ensures TokensOf(InComment(star), DocTail(field, indent)) == [CommentToken]
  {
    var s := (if field.meta.deprecated == Some(true) then "\n" + indent + " * @deprecated" else "") + "\n" + indent + " ";
    assert DocTail(field, indent) == s + "*/\n";
    assert '/' !in indent;
    CommentCloses(star, s);
  }

  /** A comment around a description that stays inside it shows no token. */
  lemma CommentShowsNothing(field: Node, indent: string)
    requires (forall c | c in indent :: c == ' ') && StaysInComment(DescriptionOf(field))
    ensures ClosesAs(indent + "/**\n" + indent + " * " + DescriptionOf(field) + DocTail(field, indent), [])
  {
    var open, d, tail := indent + "/**\n" + indent + " * ", DescriptionOf(field), DocTail(field, indent);
    var inside := ModeAfter(InComment(false), d);
    CommentOpens(indent);
    TailCloses(inside.star, field, indent);
    LexConcat(Between, open + d, tail);
    LexConcat(Between, open, d);
    CodeConcat(TokensOf(InComment(false), d), [CommentToken]);
    assert [] + TokensOf(InComment(false), d) == TokensOf(InComment(false), d);
    assert Code([CommentToken]) == [];
  }

  lemma DeprecatedOnly(field: Node, indent: string)
    requires DescriptionOf(field) == "" && field.meta.deprecated == Some(true)
    ensures FieldDoc(field, indent) == indent + "/**\n" + indent + " * " + ("@deprecated\n" + indent + " ") + "*/\n"
  {
    var only := ["@deprecated"];
    assert [] + only == only && DocLines(only, indent) == indent + " * " + "@deprecated";
  }

  lemma DocShowsNothing(field: Node, indent: string)
    requires (forall c | c in indent :: c == ' ') && StaysInComment(DescriptionOf(field))
    ensures ClosesAs(FieldDoc(field, indent), [])
  {
    if DescriptionOf(field) != "" {
      DescribedDoc(field, indent);
      CommentShowsNothing(field, indent);
    } else if field.meta.deprecated == Some(true) {
      var tail := "@deprecated\n" + indent + " ";
      DeprecatedOnly(field, indent);
      CommentOpens(indent);
      CommentCloses(false, tail);
      LexConcat(Between, indent + "/**\n" + indent + " * ", tail + "*/\n");
      assert indent + "/**\n" + indent + " * " + (tail + "*/\n") == FieldDoc(field, indent);
      assert Code([] + [CommentToken]) == [];
    } else {
      assert FieldDoc(field, indent) == "";
    }
  }

  // ---- Out of a comment ----

  /** The description ends outside the comment it was put in. */
  predicate LeavesComment(d: string) {
    !ModeAfter(InComment(false), d).InComment?
  }

  lemma {:induction false} BrokenStays(s: string)
    ensures ModeAfter(Broken, s) == Broken
  {
    if s != "" {
      BrokenStays(Front(s));
    }
  }

  lemma NewlineEnds(m: LexMode)
    requires !m.InComment?
    ensures LexStep(m, '\n') == Between || LexStep(m, '\n') == Broken
  {
  }

  lemma BrokenThen(m: LexMode, a: string, b: string)
    requires ModeAfter(m, a) == Broken
    ensures ModeAfter(m, a + b) == Broken
  {
    LexConcat(m, a, b);
    BrokenStays(b);
  }

  lemma LineStarts(m: LexMode, indent: string)
    requires !m.InComment? && forall c | c in indent :: c == ' '
    ensures ModeAfter(m, "\n" + indent) == Between || ModeAfter(m, "\n" + indent) == Broken
  {
    StepOnce(m, '\n');
    NewlineEnds(m);
    SpacesAreClosed(indent);
    BrokenStays(indent);
    LexConcat(m, "\n", indent);
  }

  lemma StarBreaks(text: string)
    requires |text| >= 2 && text[0] == ' ' && text[1] == '*'
    ensures ModeAfter(Between, text) == Broken
  {
    assert text == [' ', '*'] + text[2..];
    StepTwice(Between, ' ', '*');
    BrokenThen(Between, [' ', '*'], text[2..]);
  }

  /** Outside a comment, a line that starts with a star is no code. */
  lemma StarLineBreaks(m: LexMode, indent: string, text: string)
    requires !m.InComment? && forall c | c in indent :: c == ' '
    requires |text| >= 2 && text[0] == ' ' && text[1] == '*'
    ensures ModeAfter(m, "\n" + indent + text) == Broken
  {
    LineStarts(m, indent);
    StarBreaks(text);
    BrokenStays(text);
    LexConcat(m, "\n" + indent, text);
  }

  lemma TailBreaks(m: LexMode, field: Node, indent: string)
    requires !m.InComment? && forall c | c in indent :: c == ' '
    ensures ModeAfter(m, DocTail(field, indent)) == Broken
  {
    if field.meta.deprecated == Some(true) {
      var line := "\n" + indent + " * @deprecated";
      StarLineBreaks(m, indent, " * @deprecated");
      BrokenThen(m, line, "\n");
      BrokenThen(m, line + "\n", indent);
      BrokenThen(m, line + "\n" + indent, " */\n");
    } else {
      StarLineBreaks(m, indent, " */\n");
      assert "" + "\n" == "\n";
    }
  }

  lemma DocBreaks(field: Node, indent: string)
    requires (forall c | c in indent :: c == ' ') && LeavesComment(DescriptionOf(field))
    ensures ModeAfter(Between, FieldDoc(field, indent)) == Broken
  {
    var open, d, tail := indent + "/**\n" + indent + " * ", DescriptionOf(field), DocTail(field, indent);
    assert d != "";
    DescribedDoc(field, indent);
    CommentOpens(indent);
    LexConcat(Between, open + d, tail);
    LexConcat(Between, open, d);
    TailBreaks(ModeAfter(InComment(false), d), field, indent);
  }
}
