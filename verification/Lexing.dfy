/** Text to tokens, one character at a time: words, string literals, punctuation and block comments, for TypeScript types
    and JSON, whose grammar has no place for a comment. */
module Lexing {
  import opened Values
  import opened Folds
  import opened JsonText

  datatype Token = WordToken(text: string) | TextToken(text: string) | Punct(c: char) | CommentToken

  datatype Escape = Plain | Backslash | Hex(digits: nat, value: nat)

  datatype LexMode =
    | Between | InWord(word: string) | InText(text: string, escape: Escape)
    | Slash | InComment(star: bool)
    | Broken

  predicate IsWordChar(c: char) {
    IsLetter(c) || IsDigit(c) || c == '.' || c == '-' || c == '+'
  }

  predicate IsPunct(c: char) {
    c in "{}()[]|?:;,"
  }

  predicate IsSpace(c: char) {
    c == ' ' || c == '\n' || c == '\t' || c == '\r'
  }

  function Start(c: char): LexMode {
    if IsWordChar(c) then InWord([c])
    else if c == '"' then InText("", Plain)
    else if IsPunct(c) || IsSpace(c) then Between
    else if c == '/' then Slash
    else Broken
  }

  /** The value of a hexadecimal digit; 16 for any other character. */
  function HexValue(c: char): nat {
    if IsDigit(c) then c as int - '0' as int
    else if 'a' <= c <= 'f' then c as int - 'a' as int + 10
    else if 'A' <= c <= 'F' then c as int - 'A' as int + 10
    else 16
  }

  function TextStep(text: string, escape: Escape, c: char): LexMode {
    match escape
    case Plain =>
      if c == '"' then Between
      else if c == '\\' then InText(text, Backslash)
      else if c as int < 0x20 then Broken
      else InText(text + [c], Plain)
    case Backslash =>
      if c == '"' || c == '\\' || c == '/' then InText(text + [c], Plain)
      else if c == 'b' then InText(text + [8 as char], Plain)
      else if c == 't' then InText(text + [9 as char], Plain)
      else if c == 'n' then InText(text + [10 as char], Plain)
      else if c == 'f' then InText(text + [12 as char], Plain)
      else if c == 'r' then InText(text + [13 as char], Plain)
      else if c == 'u' then InText(text, Hex(0, 0))
      else Broken
    case Hex(digits, value) =>
      var v := 16 * value + HexValue(c);
      if HexValue(c) == 16 then Broken
      else if digits < 3 then InText(text, Hex(digits + 1, v))
      else if v < 0xD800 || 0xE000 <= v < 0x10000 then InText(text + [v as char], Plain)
      else Broken
  }

  function LexStep(m: LexMode, c: char): LexMode {
    match m
    case Between => Start(c)
    case InWord(w) => if IsWordChar(c) then InWord(w + [c]) else Start(c)
    case InText(text, escape) => TextStep(text, escape, c)
    case Slash => if c == '*' then InComment(false) else Broken
    case InComment(star) => if star && c == '/' then Between else InComment(c == '*')
    case Broken => Broken
  }

  /** The tokens completed by reading `c`. */
  function Completed(m: LexMode, c: char): seq<Token> {
    var mark := if IsPunct(c) then [Punct(c)] else [];
    match m
    case Between => mark
    case InWord(w) => if IsWordChar(c) then [] else [WordToken(w)] + mark
    case InText(text, escape) => if escape.Plain? && c == '"' then [TextToken(text)] else []
    case InComment(star) => if star && c == '/' then [CommentToken] else []
    case _ => []
  }

  function ModeAfter(m: LexMode, s: string): LexMode {
    Fold(LexStep, m, s)
  }

  function TokensOf(m: LexMode, s: string): seq<Token> {
    Collect(LexStep, Completed, m, s)
  }

  /** The tokens of a whole text. */
  function Lex(s: string): Option<seq<Token>> {
    match ModeAfter(Between, s)
    case Between => Some(TokensOf(Between, s))
    case InWord(w) => Some(TokensOf(Between, s) + [WordToken(w)])
    case _ => None
  }

  lemma LexConcat(m: LexMode, a: string, b: string)
    ensures ModeAfter(m, a + b) == ModeAfter(ModeAfter(m, a), b)
    ensures TokensOf(m, a + b) == TokensOf(m, a) + TokensOf(ModeAfter(m, a), b)
  {
    FoldConcat(LexStep, m, a, b);
    CollectConcat(LexStep, Completed, m, a, b);
  }

  // ---- Token lists ----

  type Parsed<T> = Option<(T, seq<Token>)>

  predicate StartsWith(ts: seq<Token>, c: char) {
    ts != [] && ts[0] == Punct(c)
  }

  // ---- Pieces of text ----

  /** `s` has the tokens `ts`, and is over: nothing that follows can change them. */
  predicate IsClosed(s: string, ts: seq<Token>) {
    ModeAfter(Between, s) == Between && TokensOf(Between, s) == ts
  }

  /** `s` has the tokens `ts`, the last of which may be a word still open at its end. */
  predicate LexesTo(s: string, ts: seq<Token>) {
    Lex(s) == Some(ts)
  }

  /** What follows an open word and is no part of it. */
  predicate IsBreak(s: string) {
    s != "" && !IsWordChar(s[0])
  }

  lemma ClosedConcat(a: string, ta: seq<Token>, b: string, tb: seq<Token>)
    requires IsClosed(a, ta)
    ensures IsClosed(b, tb) ==> IsClosed(a + b, ta + tb)
    ensures LexesTo(b, tb) ==> LexesTo(a + b, ta + tb)
  {
    LexConcat(Between, a, b);
    if w :| ModeAfter(Between, b) == InWord(w) {
      assert ta + (TokensOf(Between, b) + [WordToken(w)]) == (ta + TokensOf(Between, b)) + [WordToken(w)];
    }
  }

  lemma StepOnce(m: LexMode, c: char)
    ensures ModeAfter(m, [c]) == LexStep(m, c) && TokensOf(m, [c]) == Completed(m, c)
  {
    assert [c] != "" && Front([c]) == "" && LastOf([c]) == c;
    assert Fold(LexStep, m, Front([c])) == m && Collect(LexStep, Completed, m, Front([c])) == [];
  }

  lemma BreakStep(w: string, c: char)
    requires !IsWordChar(c)
    ensures LexStep(InWord(w), c) == LexStep(Between, c)
    ensures Completed(InWord(w), c) == [WordToken(w)] + Completed(Between, c)
  {
  }

  /** A break ends an open word. */
  lemma BreakEndsWord(w: string, b: string)
    requires IsBreak(b)
    ensures ModeAfter(InWord(w), b) == ModeAfter(Between, b)
    ensures TokensOf(InWord(w), b) == [WordToken(w)] + TokensOf(Between, b)
  {
    var head, rest := [b[0]], b[1..];
    var m := LexStep(Between, b[0]);
    assert b == head + rest;
    BreakStep(w, b[0]);
    StepOnce(InWord(w), b[0]);
    StepOnce(Between, b[0]);
    LexConcat(InWord(w), head, rest);
    LexConcat(Between, head, rest);
    Reassociate([WordToken(w)], Completed(Between, b[0]), TokensOf(m, rest));
  }

  lemma BreakAppend(a: string, w: string, b: string)
    requires ModeAfter(Between, a) == InWord(w) && IsBreak(b)
    ensures ModeAfter(Between, a + b) == ModeAfter(Between, b)
    ensures TokensOf(Between, a + b) == TokensOf(Between, a) + [WordToken(w)] + TokensOf(Between, b)
  {
    LexConcat(Between, a, b);
    BreakEndsWord(w, b);
    Reassociate(TokensOf(Between, a), [WordToken(w)], TokensOf(Between, b));
  }

  lemma Reassociate<T>(a: seq<T>, b: seq<T>, c: seq<T>)
    ensures a + (b + c) == a + b + c
  {
  }

  lemma BreakConcat(a: string, ta: seq<Token>, b: string, tb: seq<Token>)
    requires LexesTo(a, ta) && IsBreak(b)
    ensures IsClosed(b, tb) ==> IsClosed(a + b, ta + tb)
    ensures LexesTo(b, tb) ==> LexesTo(a + b, ta + tb)
  {
    if w :| ModeAfter(Between, a) == InWord(w) {
      BreakAppend(a, w, b);
      if x :| ModeAfter(Between, b) == InWord(x) {
        Reassociate(ta, TokensOf(Between, b), [WordToken(x)]);
      }
    } else {
      ClosedConcat(a, ta, b, tb);
    }
  }

  predicate IsWordText(s: string) {
    s != "" && forall c | c in s :: IsWordChar(c)
  }

  lemma WordStep(before: string, c: char)
    requires IsWordChar(c)
    ensures LexStep(InWord(before), c) == InWord(before + [c]) && Completed(InWord(before), c) == []
    ensures LexStep(Between, c) == InWord([c]) && Completed(Between, c) == []
  {
  }

  lemma {:induction false} WordMode(w: string)
    requires IsWordText(w)
    ensures ModeAfter(Between, w) == InWord(w) && TokensOf(Between, w) == []
  {
    var before, c := Front(w), LastOf(w);
    assert c in w && w == before + [c];
    WordStep(before, c);
    if before == "" {
      assert w == [c];
      StepOnce(Between, c);
    } else {
      assert forall x | x in before :: x in w;
      WordMode(before);
      StepOnce(InWord(before), c);
      LexConcat(Between, before, [c]);
    }
  }

  lemma WordLexes(w: string)
    requires IsWordText(w)
    ensures LexesTo(w, [WordToken(w)])
  {
    WordMode(w);
    assert [] + [WordToken(w)] == [WordToken(w)];
  }

  lemma {:induction false} SpacesAreClosed(s: string)
    requires forall c | c in s :: IsSpace(c)
    ensures IsClosed(s, [])
  {
    if s != "" {
      assert LastOf(s) in s && s == Front(s) + [LastOf(s)];
      SpacesAreClosed(Front(s));
      StepOnce(Between, LastOf(s));
      LexConcat(Between, Front(s), [LastOf(s)]);
    }
  }

  lemma PunctIsClosed(c: char)
    requires IsPunct(c)
    ensures IsClosed([c], [Punct(c)]) && IsBreak([c])
  {
    StepOnce(Between, c);
  }

  // ---- String literals ----

  lemma HexValueOfDigit(d: nat)
    requires d < 16
    ensures HexValue(HEX_DIGITS[d]) == d
  {
  }

  lemma StepTwice(m: LexMode, c: char, d: char)
    ensures ModeAfter(m, [c, d]) == LexStep(LexStep(m, c), d)
    ensures TokensOf(m, [c, d]) == Completed(m, c) + Completed(LexStep(m, c), d)
  {
    assert [c, d] == [c] + [d];
    LexConcat(m, [c], [d]);
    StepOnce(m, c);
    StepOnce(LexStep(m, c), d);
  }

  /** Reading `b` after `a`, where neither completes a token. */
  lemma QuietConcat(m: LexMode, a: string, mid: LexMode, b: string)
    requires ModeAfter(m, a) == mid && TokensOf(m, a) == [] && TokensOf(mid, b) == []
    ensures ModeAfter(m, a + b) == ModeAfter(mid, b) && TokensOf(m, a + b) == []
  {
    LexConcat(m, a, b);
  }

  lemma PlainReadsBack(text: string, c: char)
    requires EscapeChar(c) == [c]
    ensures ModeAfter(InText(text, Plain), [c]) == InText(text + [c], Plain)
    ensures TokensOf(InText(text, Plain), [c]) == []
  {
    StepOnce(InText(text, Plain), c);
  }

  lemma ShortReadsBack(text: string, c: char)
    requires |EscapeChar(c)| == 2
    ensures ModeAfter(InText(text, Plain), EscapeChar(c)) == InText(text + [c], Plain)
    ensures TokensOf(InText(text, Plain), EscapeChar(c)) == []
  {
    var e := EscapeChar(c);
    assert e == ['\\', e[1]];
    StepTwice(InText(text, Plain), '\\', e[1]);
  }

  /** The lexer reads back what one character was escaped to. */
  lemma EscapeReadsBack(text: string, c: char)
    ensures ModeAfter(InText(text, Plain), EscapeChar(c)) == InText(text + [c], Plain)
    ensures TokensOf(InText(text, Plain), EscapeChar(c)) == []
  {
    if |EscapeChar(c)| == 1 {
      PlainReadsBack(text, c);
    } else if |EscapeChar(c)| == 2 {
      ShortReadsBack(text, c);
    } else {
      UnicodeReadsBack(text, c);
    }
  }

  lemma UnicodeReadsBack(text: string, c: char)
    requires |EscapeChar(c)| > 2
    ensures ModeAfter(InText(text, Plain), EscapeChar(c)) == InText(text + [c], Plain)
    ensures TokensOf(InText(text, Plain), EscapeChar(c)) == []
  {
    var n := c as int;
    var digits := [HEX_DIGITS[n / 16], HEX_DIGITS[n % 16]];
    assert EscapeChar(c) == "\\u00" + digits;
    LexConcat(InText(text, Plain), "\\u00", digits);
    UnicodeOpens(text);
    UnicodeCloses(text, c);
  }

  lemma UnicodeCloses(text: string, c: char)
    requires c as int < 256
    ensures var digits := [HEX_DIGITS[c as int / 16], HEX_DIGITS[c as int % 16]];
            && ModeAfter(InText(text, Hex(2, 0)), digits) == InText(text + [c], Plain)
            && TokensOf(InText(text, Hex(2, 0)), digits) == []
  {
    HexValueOfDigit(c as int / 16);
    HexValueOfDigit(c as int % 16);
    StepTwice(InText(text, Hex(2, 0)), HEX_DIGITS[c as int / 16], HEX_DIGITS[c as int % 16]);
  }

  lemma UnicodeOpens(text: string)
    ensures ModeAfter(InText(text, Plain), "\\u00") == InText(text, Hex(2, 0))
    ensures TokensOf(InText(text, Plain), "\\u00") == []
  {
    UnicodeStarts(text);
    UnicodeZeros(text);
    assert "\\u00" == ['\\', 'u'] + ['0', '0'];
    QuietConcat(InText(text, Plain), ['\\', 'u'], InText(text, Hex(0, 0)), ['0', '0']);
  }

  lemma UnicodeStarts(text: string)
    ensures ModeAfter(InText(text, Plain), ['\\', 'u']) == InText(text, Hex(0, 0))
    ensures TokensOf(InText(text, Plain), ['\\', 'u']) == []
  {
    StepTwice(InText(text, Plain), '\\', 'u');
  }

  lemma UnicodeZeros(text: string)
    ensures ModeAfter(InText(text, Hex(0, 0)), ['0', '0']) == InText(text, Hex(2, 0))
    ensures TokensOf(InText(text, Hex(0, 0)), ['0', '0']) == []
  {
    StepTwice(InText(text, Hex(0, 0)), '0', '0');
  }

  /** The state after a text literal has been read up to the escaped `s`. */
  predicate HasRead(escaped: string, s: string) {
    ModeAfter(InText("", Plain), escaped) == InText(s, Plain) && TokensOf(InText("", Plain), escaped) == []
  }

  lemma {:induction false} EscapedReadsBack(s: string)
    ensures HasRead(Escaped(s), s)
  {
    if s != "" {
      EscapedReadsBack(Front(s));
      EscapedStep(Front(s), Escaped(Front(s)), LastOf(s));
      EscapedGrows(s);
      FrontAndLast(s);
    }
  }

  lemma EscapedGrows(s: string)
    requires s != ""
    ensures Escaped(s) == Escaped(Front(s)) + EscapeChar(LastOf(s))
  {
  }

  lemma FrontAndLast(s: string)
    requires s != ""
    ensures s == Front(s) + [LastOf(s)]
  {
  }

  lemma EscapedStep(text: string, escaped: string, c: char)
    requires HasRead(escaped, text)
    ensures HasRead(escaped + EscapeChar(c), text + [c])
  {
    EscapeReadsBack(text, c);
    QuietConcat(InText("", Plain), escaped, InText(text, Plain), EscapeChar(c));
  }

  /** `JSON.stringify` of a text is one string literal, of that text. */
  lemma StringifiedIsClosed(s: string)
    ensures IsClosed(Stringified(s), [TextToken(s)])
  {
    LexConcat(Between, "\"" + Escaped(s), "\"");
    LexConcat(Between, "\"", Escaped(s));
    StepOnce(Between, '"');
    EscapedReadsBack(s);
    StepOnce(InText(s, Plain), '"');
  }
}
