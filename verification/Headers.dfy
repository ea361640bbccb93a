/** JSDoc provenance headers: how a block of `* key: value` lines is found, split and read, and how it is written. */
module Headers {
  import opened Values

  // ---- Character classes of the two patterns ----

  /** `\s`. */
  predicate IsWhitespace(c: char) {
    var n := c as int;
    9 <= n <= 13 || n == 0x20 || n == 0xA0 || n == 0x1680 || 0x2000 <= n <= 0x200A
    || n == 0x2028 || n == 0x2029 || n == 0x202F || n == 0x205F || n == 0x3000 || n == 0xFEFF
  }

  /** What `.` does not match. */
  predicate IsTerminator(c: char) {
    c == '\n' || c == '\r' || c as int == 0x2028 || c as int == 0x2029
  }

  /** `\w`. */
  predicate IsNameChar(c: char) {
    'a' <= c <= 'z' || 'A' <= c <= 'Z' || '0' <= c <= '9' || c == '_'
  }

  // ---- Reading ----

  /** The length of the longest prefix whose characters all satisfy `p`. */
  function Span(p: char -> bool, s: string): (n: nat)
    ensures n <= |s|
    ensures forall i | 0 <= i < n :: p(s[i])
    ensures n < |s| ==> !p(s[n])
  {
    if s == "" || !p(s[0]) then 0
    else
      assert forall i | 0 <= i < |s[1..]| :: s[1..][i] == s[i + 1];
      1 + Span(p, s[1..])
  }

  function TrimStart(s: string): string {
    s[Span(IsWhitespace, s)..]
  }

  /** `s` up to its last character that is no whitespace. */
  function TrimEnd(s: string): (r: string)
    ensures r <= s
    ensures r != "" ==> !IsWhitespace(r[|r| - 1])
    ensures forall i | |r| <= i < |s| :: IsWhitespace(s[i])
  {
    if s != "" && IsWhitespace(LastOf(s)) then TrimEnd(Front(s)) else s
  }

  /** `s` has the text `p` at `k`. */
  predicate IsAt(s: string, p: string, k: nat) {
    k + |p| <= |s| && s[k..k + |p|] == p
  }

  function IndexOf(s: string, p: string, from: nat): (r: Option<nat>)
    ensures r.Some? ==> from <= r.value && IsAt(s, p, r.value) && forall k: nat | from <= k < r.value :: !IsAt(s, p, k)
    ensures r.None? ==> forall k: nat | from <= k :: !IsAt(s, p, k)
    decreases |s| - from
  {
    if from + |p| > |s| then None
    else if IsAt(s, p, from) then Some(from)
    else IndexOf(s, p, from + 1)
  }

  /** `/\/\*\*([\s\S]*?)\*\//`: what stands between the first opening and the next closing. */
  function BlockOf(content: string): Option<string> {
    match IndexOf(content, "/**", 0)
    case None => None
    case Some(i) =>
      match IndexOf(content, "*/", i + 3)
      case None => None
      case Some(j) => Some(content[i + 3..j])
  }

  /** `split(/\r?\n/)`. */
  function SplitLines(s: string): seq<string>
    decreases |s|
  {
    var i := Span(c => c != '\n', s);
    if i == |s| then [s] else [WithoutReturn(s[..i])] + SplitLines(s[i + 1..])
  }

  function WithoutReturn(line: string): string {
    if line != "" && LastOf(line) == '\r' then Front(line) else line
  }

  /** The last character of a blank text that `.` matches. */
  function LastPlain(s: string): Option<string> {
    if s == "" then None
    else if IsTerminator(LastOf(s)) then LastPlain(Front(s))
    else Some([LastOf(s)])
  }

  /** `\s*(.+?)\s*$` after the colon: the text without surrounding whitespace; of a blank text, backtracking leaves
      one whitespace character. */
  function FieldValue(text: string): Option<string> {
    var v := TrimEnd(TrimStart(text));
    if v == "" then LastPlain(text)
    else if exists c | c in v :: IsTerminator(c) then None
    else Some(v)
  }

  /** `/^\s*\*\s+(\w+):\s*(.+?)\s*$/`. */
  function MatchField(line: string): Option<(string, string)> {
    var s := TrimStart(line);
    if s == "" || s[0] != '*' then None
    else
      var gap := Span(IsWhitespace, s[1..]);
      if gap == 0 then None else MatchKey(s[1..][gap..])
  }

  /** The part of the pattern from the key on. */
  function MatchKey(u: string): Option<(string, string)> {
    var n := Span(IsNameChar, u);
    if n == 0 || n == |u| || u[n] != ':' then None
    else
      match FieldValue(u[n + 1..])
      case None => None
      case Some(v) => Some((u[..n], v))
  }

  /** Later lines overwrite earlier ones. */
  function FieldsOf(lines: seq<string>): map<string, string> {
    if lines == [] then map[]
    else
      match MatchField(LastOf(lines))
      case None => FieldsOf(Front(lines))
      case Some((key, value)) => FieldsOf(Front(lines))[key := value]
  }

  lemma FieldsStep(lines: seq<string>, i: nat, m: Option<(string, string)>)
    requires i < |lines| && m == MatchField(lines[i])
    ensures FieldsOf(lines[..i + 1])
         == if m.Some? then FieldsOf(lines[..i])[m.value.0 := m.value.1] else FieldsOf(lines[..i])
  {
    assert Front(lines[..i + 1]) == lines[..i] && LastOf(lines[..i + 1]) == lines[i];
  }

  method ReadFields(block: string) returns (fields: map<string, string>)
    ensures fields == FieldsOf(SplitLines(block))
  {
    fields := map[];
    var lines := SplitLines(block);
    for i := 0 to |lines|
      invariant fields == FieldsOf(lines[..i])
    {
      var m := MatchField(lines[i]);
      FieldsStep(lines, i, m);
      if m.Some? {
        fields := fields[m.value.0 := m.value.1];
      }
    }
    assert lines[..|lines|] == lines;
  }

  /** `sha256:` and 64 lower-case hexadecimal digits. */
  predicate IsSha256(s: string) {
    |s| == 71 && s[..7] == "sha256:" && forall i | 7 <= i < 71 :: '0' <= s[i] <= '9' || 'a' <= s[i] <= 'f'
  }

  // ---- Which values survive ----

  predicate HasNoClose(s: string) {
    forall i | 0 <= i < |s| - 1 :: !(s[i] == '*' && s[i + 1] == '/')
  }

  predicate HasNoTerminator(s: string) {
    forall c | c in s :: !IsTerminator(c)
  }

  /** One line, no comment closer, and trimmed or a single character. */
  predicate IsClean(v: string) {
    && v != "" && HasNoTerminator(v) && HasNoClose(v)
    && (|v| == 1 || (!IsWhitespace(v[0]) && !IsWhitespace(v[|v| - 1])))
  }

  lemma TrimIsSlice(s: string)
    ensures var v := TrimEnd(TrimStart(s)); var i := Span(IsWhitespace, s); i + |v| <= |s| && v == s[i..i + |v|]
    ensures var v := TrimEnd(TrimStart(s)); v != "" ==> !IsWhitespace(v[0]) && !IsWhitespace(v[|v| - 1])
  {
    var t := TrimStart(s);
    if TrimEnd(t) != "" {
      assert t[0] == TrimEnd(t)[0];
    }
  }

  lemma {:induction false} LastPlainIsClean(s: string)
    requires LastPlain(s).Some?
    ensures IsClean(LastPlain(s).value)
  {
    if IsTerminator(LastOf(s)) {
      LastPlainIsClean(Front(s));
    }
  }

  lemma {:induction false} LastPlainExists(s: string)
    ensures LastPlain(s).Some? <==> exists c | c in s :: !IsTerminator(c)
    ensures LastPlain(s).Some? ==> |LastPlain(s).value| == 1 && LastPlain(s).value[0] in s && !IsTerminator(LastPlain(s).value[0])
  {
    if s != "" {
      assert s == Front(s) + [LastOf(s)];
      LastPlainExists(Front(s));
    }
  }

  lemma {:induction false} BlankTrims(s: string)
    requires forall c | c in s :: IsWhitespace(c)
    ensures TrimStart(s) == TrimEnd(s) == ""
  {
    assert forall i | 0 <= i < |s| :: s[i] in s;
    if s != "" {
      assert LastOf(s) in s && forall c | c in Front(s) :: c in s;
      BlankTrims(Front(s));
    }
  }

  /** A blank value is refused exactly when all of it is line terminators; of any other, one whitespace character is read. */
  lemma BlankIsReadIff(text: string)
    requires forall c | c in text :: IsWhitespace(c)
    ensures FieldValue(text) == LastPlain(text)
    ensures FieldValue(text).Some? <==> exists c | c in text :: !IsTerminator(c)
    ensures FieldValue(text).Some? ==> |FieldValue(text).value| == 1 && IsWhitespace(FieldValue(text).value[0])
  {
    BlankTrims(text);
    assert TrimEnd("") == "";
    LastPlainExists(text);
  }

  /** Whatever is read under a key is clean, if the line holds no comment closer. */
  lemma FieldValueIsClean(text: string)
    requires HasNoClose(text) && FieldValue(text).Some?
    ensures IsClean(FieldValue(text).value)
  {
    TrimIsSlice(text);
    if TrimEnd(TrimStart(text)) == "" {
      LastPlainIsClean(text);
    }
  }

  lemma KeyedIsClean(u: string)
    requires HasNoClose(u) && MatchKey(u).Some?
    ensures IsClean(MatchKey(u).value.1)
  {
    FieldValueIsClean(u[Span(IsNameChar, u) + 1..]);
  }

  lemma MatchedIsClean(line: string)
    requires HasNoClose(line) && MatchField(line).Some?
    ensures IsClean(MatchField(line).value.1)
  {
    var s := TrimStart(line);
    var u := s[1..][Span(IsWhitespace, s[1..])..];
    TailHasNoClose(line, Span(IsWhitespace, line));
    TailHasNoClose(s, 1);
    TailHasNoClose(s[1..], Span(IsWhitespace, s[1..]));
    KeyedIsClean(u);
  }

  lemma TailHasNoClose(s: string, n: nat)
    requires HasNoClose(s) && n <= |s|
    ensures HasNoClose(s[n..])
  {
  }

  lemma {:induction false} LinesHaveNoClose(s: string)
    requires HasNoClose(s)
    ensures forall l | l in SplitLines(s) :: HasNoClose(l)
    decreases |s|
  {
    var i := Span(c => c != '\n', s);
    if i < |s| {
      LinesHaveNoClose(s[i + 1..]);
    }
  }

  predicate AllClean(fields: map<string, string>) {
    forall k | k in fields :: IsClean(fields[k])
  }

  lemma {:induction false} FieldsAreClean(lines: seq<string>)
    requires forall l | l in lines :: HasNoClose(l)
    ensures AllClean(FieldsOf(lines))
  {
    if lines != [] {
      assert LastOf(lines) in lines && forall l | l in Front(lines) :: l in lines;
      FieldsAreClean(Front(lines));
      if MatchField(LastOf(lines)).Some? {
        MatchedIsClean(LastOf(lines));
      }
    }
  }

  lemma BlockHasNoClose(content: string)
    requires BlockOf(content).Some?
    ensures HasNoClose(BlockOf(content).value)
  {
    var start := IndexOf(content, "/**", 0).value + 3;
    var block := BlockOf(content).value;
    forall i | 0 <= i < |block| - 1 ensures !(block[i] == '*' && block[i + 1] == '/') {
      assert content[start + i] == block[i] && content[start + i + 1] == block[i + 1];
      if block[i] == '*' && block[i + 1] == '/' {
        PairIsAt(content, start + i);
      }
    }
  }

  lemma PairIsAt(s: string, k: nat)
    requires k + 1 < |s| && s[k] == '*' && s[k + 1] == '/'
    ensures IsAt(s, "*/", k)
  {
    assert s[k..k + 2] == [s[k], s[k + 1]];
  }

  /** Every value read from a header is clean, whatever the text. */
  lemma ReadValuesAreClean(content: string)
    requires BlockOf(content).Some?
    ensures AllClean(FieldsOf(SplitLines(BlockOf(content).value)))
  {
    BlockHasNoClose(content);
    LinesHaveNoClose(BlockOf(content).value);
    FieldsAreClean(SplitLines(BlockOf(content).value));
  }
}
