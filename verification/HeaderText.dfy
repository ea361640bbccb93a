/** Provenance headers as they are written, and what reading them gives back. */
module HeaderText {
  import opened Values
  import opened JsonText
  import opened Headers

  /** A header line: a padded `key: value`, or text that is no field. */
  datatype Line = FieldLine(key: string, pad: nat, value: string) | NoteLine(text: string)

  function LineText(l: Line): string {
    match l
    case FieldLine(key, pad, value) => " * " + key + ":" + Spaces(pad) + value
    case NoteLine(text) => text
  }

  /** The label column: the longest label, `generatorVersion:`, and one more. */
  const LABEL_WIDTH := 18

  /** A field whose label fills the label column. */
  function AlignedLine(key: string, value: string): Line {
    FieldLine(key, if |key| + 1 < LABEL_WIDTH then LABEL_WIDTH - |key| - 1 else 0, value)
  }

  /** `lines.join("\n")`. */
  function Joined(lines: seq<Line>): string
    requires lines != []
  {
    if |lines| == 1 then LineText(lines[0]) else LineText(lines[0]) + "\n" + Joined(lines[1..])
  }

  function HeaderOf(lines: seq<Line>): string
    requires lines != []
  {
    "/**\n" + Joined(lines) + "\n */"
  }

  /** What the pattern reads as the value of a field line. */
  function ReadAs(l: Line): Option<string>
    requires l.FieldLine?
  {
    FieldValue(Spaces(l.pad) + l.value)
  }

  /** What the lines say of each key, the last readable line of a key standing. */
  function Recorded(lines: seq<Line>): map<string, string> {
    if lines == [] then map[]
    else
      match LastOf(lines)
      case NoteLine(_) => Recorded(Front(lines))
      case FieldLine(key, _, _) =>
        if ReadAs(LastOf(lines)).None? then Recorded(Front(lines)) else Recorded(Front(lines))[key := ReadAs(LastOf(lines)).value]
  }

  predicate IsName(s: string) {
    s != "" && forall c | c in s :: IsNameChar(c)
  }

  /** A text that stays on one line and does not close the block. */
  predicate IsOneLine(s: string) {
    HasNoClose(s) && forall c | c in s :: c != '\n' && c != '\r'
  }

  predicate IsProper(l: Line) {
    match l
    case FieldLine(key, _, value) => IsName(key) && IsOneLine(value)
    case NoteLine(text) => IsOneLine(text) && MatchField(text).None?
  }

  // ---- Pieces ----

  lemma SpanConcat(p: char -> bool, a: string, b: string)
    requires (forall c | c in a :: p(c)) && (b != "" ==> !p(b[0]))
    ensures Span(p, a + b) == |a|
  {
    forall i | 0 <= i < |a| ensures p((a + b)[i]) {
      assert (a + b)[i] in a;
    }
    assert b != "" ==> (a + b)[|a|] == b[0];
  }

  lemma OneLineConcat(a: string, b: string)
    requires IsOneLine(a) && IsOneLine(b) && (a == "" || LastOf(a) != '*')
    ensures IsOneLine(a + b)
  {
  }

  lemma StarlessIsOneLine(s: string)
    requires forall c | c in s :: c != '*' && c != '\n' && c != '\r'
    ensures IsOneLine(s) && (s != "" ==> LastOf(s) != '*')
  {
    assert forall i | 0 <= i < |s| :: s[i] in s;
  }

  lemma LineIsOneLine(l: Line)
    requires IsProper(l)
    ensures IsOneLine(LineText(l))
  {
    if l.FieldLine? {
      SpacesAreSpaces(l.pad);
      StarlessIsOneLine(l.key);
      StarlessIsOneLine(Spaces(l.pad));
      assert IsOneLine(" * ") && IsOneLine(":") && IsOneLine(l.value);
      OneLineConcat(" * ", l.key);
      OneLineConcat(" * " + l.key, ":");
      OneLineConcat(" * " + l.key + ":", Spaces(l.pad));
      OneLineConcat(" * " + l.key + ":" + Spaces(l.pad), l.value);
    }
  }

  // ---- One line reads back ----

  lemma TrimmedIsKept(v: string)
    requires v != "" && !IsWhitespace(v[|v| - 1])
    ensures TrimEnd(v) == v
  {
  }

  /** A clean value is what the pattern reads after any number of spaces. */
  lemma CleanValueReadsBack(pad: string, v: string)
    requires (forall c | c in pad :: IsWhitespace(c)) && IsClean(v)
    ensures FieldValue(pad + v) == Some(v)
  {
    if IsWhitespace(v[0]) {
      assert forall c | c in pad + v :: c in pad || c == v[0];
      SpanConcat(IsWhitespace, pad + v, "");
      assert pad + v + "" == pad + v;
      assert v == [v[0]] && v[0] in v;
      assert TrimStart(pad + v) == "";
      assert LastOf(pad + v) == v[0];
    } else {
      SpanConcat(IsWhitespace, pad, v);
      assert (pad + v)[|pad|..] == v;
      TrimmedIsKept(v);
    }
  }

  lemma CleanReads(l: Line)
    requires l.FieldLine? && IsClean(l.value)
    ensures ReadAs(l) == Some(l.value) && IsOneLine(l.value)
  {
    SpacesAreSpaces(l.pad);
    CleanValueReadsBack(Spaces(l.pad), l.value);
  }

  /** A padded blank value is not refused: one whitespace character is read. */
  lemma PaddedBlankIsRead(l: Line)
    requires l.FieldLine? && l.pad > 0 && forall c | c in l.value :: IsWhitespace(c)
    ensures ReadAs(l).Some? && |ReadAs(l).value| == 1 && IsWhitespace(ReadAs(l).value[0])
  {
    var text := Spaces(l.pad) + l.value;
    SpacesAreSpaces(l.pad);
    assert text[0] == Spaces(l.pad)[0] && Spaces(l.pad)[0] in Spaces(l.pad);
    assert text[0] in text;
    BlankIsReadIff(text);
  }

  /** Of an empty value, one space of the padding is read. */
  lemma EmptyReadsAsSpace(key: string, pad: nat)
    requires pad > 0
    ensures ReadAs(FieldLine(key, pad, "")) == Some(" ")
  {
    var s := Spaces(pad);
    SpacesAreSpaces(pad);
    assert s + "" == s && s[pad - 1] in s && LastOf(s) == s[pad - 1];
    BlankIsReadIff(s);
  }

  lemma StarStep(u: string)
    requires u != "" && !IsWhitespace(u[0])
    ensures MatchField(" * " + u) == MatchKey(u)
  {
    var line, star := " * " + u, "* " + u;
    assert line == " " + star;
    SpanConcat(IsWhitespace, " ", star);
    assert TrimStart(line) == star;
    assert star[1..] == " " + u;
    SpanConcat(IsWhitespace, " ", u);
    assert star[1..][1..] == u;
  }

  lemma KeyMatch(key: string, text: string)
    requires IsName(key)
    ensures MatchKey(key + (":" + text)) == match FieldValue(text) case None => None case Some(v) => Some((key, v))
  {
    var u := key + (":" + text);
    SpanConcat(IsNameChar, key, ":" + text);
    assert u[|key|] == ':' && u[..|key|] == key && u[|key| + 1..] == text;
  }

  lemma StarMatch(key: string, text: string)
    requires IsName(key)
    ensures MatchField(" * " + key + ":" + text) ==
            match FieldValue(text) case None => None case Some(v) => Some((key, v))
  {
    var u := key + (":" + text);
    assert " * " + key + ":" + text == " * " + u;
    assert key[0] in key && u[0] == key[0];
    StarStep(u);
    KeyMatch(key, text);
  }

  lemma FieldLineReadsBack(l: Line)
    requires IsProper(l) && l.FieldLine?
    ensures MatchField(LineText(l)) == match ReadAs(l) case None => None case Some(v) => Some((l.key, v))
  {
    assert LineText(l) == " * " + l.key + ":" + (Spaces(l.pad) + l.value);
    StarMatch(l.key, Spaces(l.pad) + l.value);
  }

  // ---- All lines read back ----

  function Texts(lines: seq<Line>): seq<string> {
    seq(|lines|, i requires 0 <= i < |lines| => LineText(lines[i]))
  }

  lemma SplitFirst(a: string, b: string)
    requires forall c | c in a :: c != '\n' && c != '\r'
    ensures SplitLines(a + "\n" + b) == [a] + SplitLines(b)
  {
    assert a + "\n" + b == a + ("\n" + b);
    SpanConcat(c => c != '\n', a, "\n" + b);
    var s := a + "\n" + b;
    assert s[..|a|] == a && s[|a| + 1..] == b;
    assert a != "" ==> LastOf(a) in a;
  }

  lemma {:induction false} SplitJoined(lines: seq<Line>)
    requires lines != [] && forall l | l in lines :: IsProper(l)
    ensures SplitLines(Joined(lines) + "\n ") == Texts(lines) + [" "]
  {
    var first := LineText(lines[0]);
    LineIsOneLine(lines[0]);
    if |lines| == 1 {
      SplitFirst(first, " ");
      LastLine();
      JoinedEnd(first, "");
      assert Texts(lines) == [first];
    } else {
      SplitJoined(lines[1..]);
      SplitFirst(first, Joined(lines[1..]) + "\n ");
      JoinedEnd(first, Joined(lines[1..]));
      TextsCons(lines);
    }
  }

  lemma JoinedEnd(first: string, others: string)
    ensures first + "\n" + (others + "\n ") == first + "\n" + others + "\n "
    ensures first + "\n" + " " == first + "\n "
  {
  }

  lemma TextsCons(lines: seq<Line>)
    requires lines != []
    ensures Texts(lines) + [" "] == [LineText(lines[0])] + (Texts(lines[1..]) + [" "])
  {
    assert Texts(lines) == [LineText(lines[0])] + Texts(lines[1..]);
  }

  lemma LastLine()
    ensures SplitLines(" ") == [" "]
  {
    SpanConcat(c => c != '\n', " ", "");
    assert " " + "" == " ";
  }

  lemma {:induction false} TextsRecord(lines: seq<Line>)
    requires forall l | l in lines :: IsProper(l)
    ensures FieldsOf([""] + Texts(lines)) == Recorded(lines)
  {
    var texts := [""] + Texts(lines);
    if lines == [] {
      assert Front(texts) == [] && LastOf(texts) == "";
    } else {
      assert Front(texts) == [""] + Texts(Front(lines));
      assert LastOf(lines) in lines && forall l | l in Front(lines) :: l in lines;
      TextsRecord(Front(lines));
      if LastOf(lines).FieldLine? {
        FieldLineReadsBack(LastOf(lines));
      }
    }
  }

  lemma {:induction false} JoinedIsOpen(lines: seq<Line>)
    requires lines != [] && forall l | l in lines :: IsProper(l)
    ensures HasNoClose(Joined(lines))
  {
    LineIsOneLine(lines[0]);
    if |lines| > 1 {
      JoinedIsOpen(lines[1..]);
    }
  }

  lemma BlockIsFound(inner: string, rest: string)
    requires HasNoClose("\n" + inner + "\n ")
    ensures BlockOf("/**\n" + inner + "\n */" + rest) == Some("\n" + inner + "\n ")
  {
    var content, block := "/**\n" + inner + "\n */" + rest, "\n" + inner + "\n ";
    assert content == "/**" + block + "*/" + rest;
    assert IsAt(content, "/**", 0);
    var close := 3 + |block|;
    assert IsAt(content, "*/", close);
    forall k: nat | 3 <= k < close ensures !IsAt(content, "*/", k) {
      assert content[k] == block[k - 3];
      assert content[k + 1] == if k + 1 < close then block[k - 2] else '*';
    }
    assert content[3..close] == block;
  }

  /** A header of proper lines is found and read line by line, whatever follows it. */
  lemma HeaderReadsBack(lines: seq<Line>, rest: string)
    requires lines != [] && forall l | l in lines :: IsProper(l)
    ensures BlockOf(HeaderOf(lines) + rest) == Some("\n" + Joined(lines) + "\n ")
    ensures FieldsOf(SplitLines("\n" + Joined(lines) + "\n ")) == Recorded(lines)
  {
    JoinedIsOpen(lines);
    OpenInBlock(Joined(lines));
    BlockIsFound(Joined(lines), rest);
    LinesReadBack(lines);
  }

  lemma OpenInBlock(inner: string)
    requires HasNoClose(inner)
    ensures HasNoClose("\n" + inner + "\n ")
  {
  }

  lemma LinesReadBack(lines: seq<Line>)
    requires lines != [] && forall l | l in lines :: IsProper(l)
    ensures FieldsOf(SplitLines("\n" + Joined(lines) + "\n ")) == Recorded(lines)
  {
    BlockLines(lines);
    BlankLineRecordsNothing([""] + Texts(lines));
    TextsRecord(lines);
  }

  /** The lines of a block: an empty one, the lines written, and the space before the closing mark. */
  lemma BlockLines(lines: seq<Line>)
    requires lines != [] && forall l | l in lines :: IsProper(l)
    ensures SplitLines("\n" + Joined(lines) + "\n ") == [""] + Texts(lines) + [" "]
  {
    var tail := Joined(lines) + "\n ";
    SplitJoined(lines);
    SplitFirst("", tail);
    assert "" + "\n" + tail == "\n" + Joined(lines) + "\n ";
    assert [""] + (Texts(lines) + [" "]) == [""] + Texts(lines) + [" "];
  }

  lemma BlankLineRecordsNothing(texts: seq<string>)
    ensures FieldsOf(texts + [" "]) == FieldsOf(texts)
  {
    assert Front(texts + [" "]) == texts && LastOf(texts + [" "]) == " ";
    SpanConcat(IsWhitespace, " ", "");
    assert " " + "" == " ";
  }

  /** The field of the last line with a key. */
  lemma {:induction false} RecordedAt(lines: seq<Line>, i: nat)
    requires i < |lines| && lines[i].FieldLine? && ReadAs(lines[i]).Some?
    requires forall j | i < j < |lines| && lines[j].FieldLine? :: lines[j].key != lines[i].key
    ensures lines[i].key in Recorded(lines) && Recorded(lines)[lines[i].key] == ReadAs(lines[i]).value
    decreases |lines|
  {
    if i < |lines| - 1 {
      RecordedAt(Front(lines), i);
    }
  }

  lemma {:induction false} RecordedKeys(lines: seq<Line>, k: string)
    requires k in Recorded(lines)
    ensures exists i :: 0 <= i < |lines| && lines[i].FieldLine? && lines[i].key == k && ReadAs(lines[i]).Some?
    decreases |lines|
  {
    if LastOf(lines).FieldLine? && LastOf(lines).key == k && ReadAs(LastOf(lines)).Some? {
      assert lines[|lines| - 1].key == k;
    } else {
      RecordedKeys(Front(lines), k);
      var i :| 0 <= i < |Front(lines)| && Front(lines)[i].FieldLine? && Front(lines)[i].key == k && ReadAs(Front(lines)[i]).Some?;
      assert lines[i].key == k;
    }
  }

  // ---- Notes ----

  /** A starred line whose text does not begin with a name and a colon. */
  lemma StarredNote(text: string)
    requires var n := Span(IsNameChar, text); n == 0 || (n < |text| && text[n] != ':')
    requires text != "" && !IsWhitespace(text[0])
    ensures MatchField(" * " + text).None?
  {
    StarStep(text);
  }

  lemma BareStar()
    ensures MatchField(" *").None?
  {
    assert " *" == " " + "*";
    SpanConcat(IsWhitespace, " ", "*");
    assert TrimStart(" *") == "*";
  }

  /** A note whose first word is not followed by a colon. */
  lemma NoteIsProper(word: string, rest: string)
    requires forall c | c in word :: IsNameChar(c)
    requires rest != "" && !IsNameChar(rest[0]) && rest[0] != ':' && (word == "" ==> !IsWhitespace(rest[0]))
    requires forall c | c in rest :: c != '*' && c != '\n' && c != '\r'
    ensures IsProper(NoteLine(" * " + (word + rest)))
  {
    var text := word + rest;
    SpanConcat(IsNameChar, word, rest);
    assert word != "" ==> word[0] in word && text[0] == word[0];
    StarredNote(text);
    StarlessIsOneLine(text);
    assert IsOneLine(" * ");
    OneLineConcat(" * ", text);
  }

  lemma HeaderOpens(lines: seq<Line>, rest: string)
    requires lines != []
    ensures "/**" <= TrimStart(HeaderOf(lines) + rest)
  {
    var content := HeaderOf(lines) + rest;
    assert content[0] == '/' && content[..3] == "/**";
    assert Span(IsWhitespace, content) == 0;
  }
}
