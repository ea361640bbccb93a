/** The JSONL audit log, and why its cursor is the in-memory one. */
module Jsonl {
  import opened Values
  import opened JsonText
  import opened Lexing
  import opened Json
  import opened JsonReading
  import opened Headers
  import opened RunTypes
  import opened Adapters

  // ---- Numbers ----

  function Digit(d: nat): char
    requires d < 10
  {
    ('0' as int + d) as char
  }

  /** `String(n)` of an index. */
  function Decimal(n: nat): string {
    if n < 10 then [Digit(n)] else Decimal(n / 10) + [Digit(n % 10)]
  }

  function ReadDecimal(s: string): Option<nat> {
    if s == "" || !IsDigit(LastOf(s)) then None
    else
      var d := LastOf(s) as int - '0' as int;
      if |s| == 1 then Some(d)
      else
        match ReadDecimal(Front(s))
        case None => None
        case Some(n) => Some(10 * n + d)
  }

  lemma {:induction false} DecimalReadsBack(n: nat)
    ensures ReadDecimal(Decimal(n)) == Some(n)
  {
    if n >= 10 {
      DecimalReadsBack(n / 10);
      assert Front(Decimal(n)) == Decimal(n / 10) && LastOf(Decimal(n)) == Digit(n % 10);
    }
  }

  lemma {:induction false} DecimalDigits(n: nat)
    ensures Decimal(n) != "" && (forall c | c in Decimal(n) :: IsDigit(c)) && (n > 0 ==> Decimal(n)[0] != '0')
  {
    if n >= 10 {
      DecimalDigits(n / 10);
    }
  }

  lemma DecimalIsNumber(n: nat)
    ensures IsNumberWord(Decimal(n))
  {
    DecimalDigits(n);
    WholeNumber(Decimal(n));
  }

  // ---- One line ----

  const VERSION := "__auditSchemaVersion"
  const RUN_ID := "runId"
  const INDEX := "recordIndex"
  const STATUS := "status"

  /** What an entry carries besides the four fields the cursor reads. */
  type Extras = AuditEntry -> seq<Prop>

  ghost predicate AreExtras(extras: Extras) {
    forall e :: forall p | p in extras(e) :: IsDocument(p.value) && p.key !in {VERSION, RUN_ID, INDEX, STATUS}
  }

  function CoreProps(e: AuditEntry): seq<Prop> {
    [ Prop(VERSION, JText("1")), Prop(RUN_ID, JText(e.runId)), Prop(INDEX, JNumber(Decimal(e.recordIndex))),
      Prop(STATUS, JText(if e.succeeded then "success" else "failure")) ]
  }

  function Encode(extras: Extras, e: AuditEntry): Tree {
    JObject(CoreProps(e) + extras(e))
  }

  /** `JSON.stringify(entry)`. */
  function LineOf(extras: Extras, e: AuditEntry): string {
    Text(Encode(extras, e), false, 0)
  }

  datatype LineError = BadJson | BadShape | BadField(field: string)

  datatype LineFacts = LineFacts(runId: string, index: nat, succeeded: bool)

  /** The checks in order; the first that fails is reported. */
  function ParseAuditEntryLine(line: string): Result<LineFacts, LineError> {
    match ReadJson(line)
    case None => Err(BadJson)
    case Some(t) =>
      if !t.JObject? then Err(BadShape)
      else
        var version, runId := PropOf(t.props, VERSION), PropOf(t.props, RUN_ID);
        var status, index := PropOf(t.props, STATUS), PropOf(t.props, INDEX);
        if version != JText("1") then Err(BadField(VERSION))
        else if !runId.JText? then Err(BadField(RUN_ID))
        else if status != JText("success") && status != JText("failure") then Err(BadField(STATUS))
        else if !index.JNumber? || ReadDecimal(index.digits).None? then Err(BadField(INDEX))
        else Ok(LineFacts(runId.text, ReadDecimal(index.digits).value, status == JText("success")))
  }

  lemma CoreLookup(e: AuditEntry)
    ensures PropOf(CoreProps(e), VERSION) == JText("1")
    ensures PropOf(CoreProps(e), RUN_ID) == JText(e.runId)
    ensures PropOf(CoreProps(e), INDEX) == JNumber(Decimal(e.recordIndex))
    ensures PropOf(CoreProps(e), STATUS) == JText(if e.succeeded then "success" else "failure")
  {
    var ps := CoreProps(e);
    assert |VERSION| == 20 && |RUN_ID| == 5 && |INDEX| == 11 && |STATUS| == 6;
    PropOfLast(ps, 0);
    PropOfLast(ps, 1);
    PropOfLast(ps, 2);
    PropOfLast(ps, 3);
  }

  lemma CoreIsDocument(e: AuditEntry)
    ensures forall p | p in CoreProps(e) :: IsDocument(p.value)
  {
    DecimalIsNumber(e.recordIndex);
  }

  lemma EncodedIsDocument(extras: Extras, e: AuditEntry)
    requires AreExtras(extras)
    ensures IsDocument(Encode(extras, e))
  {
    CoreIsDocument(e);
    var core, more := CoreProps(e), extras(e);
    assert forall p | p in core + more :: p in core || p in more;
  }

  lemma EncodedLookup(extras: Extras, e: AuditEntry)
    requires AreExtras(extras)
    ensures var props := Encode(extras, e).props;
            && PropOf(props, VERSION) == JText("1") && PropOf(props, RUN_ID) == JText(e.runId)
            && PropOf(props, INDEX) == JNumber(Decimal(e.recordIndex))
            && PropOf(props, STATUS) == JText(if e.succeeded then "success" else "failure")
  {
    var core, more := CoreProps(e), extras(e);
    CoreLookup(e);
    PropOfAppend(core, more, VERSION);
    PropOfAppend(core, more, RUN_ID);
    PropOfAppend(core, more, INDEX);
    PropOfAppend(core, more, STATUS);
  }

  /** A written line reads back as the entry's facts. */
  lemma LineReadsBack(extras: Extras, e: AuditEntry)
    requires AreExtras(extras)
    ensures IsDocument(Encode(extras, e))
    ensures ParseAuditEntryLine(LineOf(extras, e)) == Ok(LineFacts(e.runId, e.recordIndex, e.succeeded))
  {
    EncodedIsDocument(extras, e);
    JsonReadsBack(Encode(extras, e), false);
    EncodedLookup(extras, e);
    DecimalReadsBack(e.recordIndex);
    assert "success" != "failure";
  }

  // ---- The file ----

  predicate IsFlat(s: string) {
    forall c | c in s :: c != '\n'
  }

  /** `split("\n")`. */
  function SplitNewlines(s: string): seq<string>
    decreases |s|
  {
    var i := Span(c => c != '\n', s);
    if i == |s| then [s] else [s[..i]] + SplitNewlines(s[i + 1..])
  }

  function Trimmed(line: string): string {
    TrimEnd(TrimStart(line))
  }

  /** What the cursor makes of a line: nothing of a blank one, an error of a malformed one. */
  function Effect(line: string): Result<Option<LineFacts>, LineError> {
    var trimmed := Trimmed(line);
    if trimmed == "" then Ok(None)
    else
      match ParseAuditEntryLine(trimmed)
      case Err(e) => Err(e)
      case Ok(f) => Ok(Some(f))
  }

  function Effects(lines: seq<string>): seq<Result<Option<LineFacts>, LineError>> {
    seq(|lines|, i requires 0 <= i < |lines| => Effect(lines[i]))
  }

  /** The success indexes of one run, unless a line is malformed. */
  function Gathered(effects: seq<Result<Option<LineFacts>, LineError>>, runId: string): Result<seq<nat>, LineError> {
    if effects == [] then Ok([])
    else
      match Gathered(Front(effects), runId)
      case Err(e) => Err(e)
      case Ok(out) =>
        match LastOf(effects)
        case Err(e) => Err(e)
        case Ok(None) => Ok(out)
        case Ok(Some(f)) => Ok(if f.runId == runId && f.succeeded then out + [f.index] else out)
  }

  function CursorOfText(text: string, runId: string): Result<seq<nat>, LineError> {
    Gathered(Effects(SplitNewlines(text)), runId)
  }

  lemma {:induction false} ErrorSticks(effects: seq<Result<Option<LineFacts>, LineError>>, runId: string, i: nat)
    requires i <= |effects| && Gathered(effects[..i], runId).Err?
    ensures Gathered(effects, runId) == Gathered(effects[..i], runId)
    decreases |effects|
  {
    if i < |effects| {
      assert Front(effects)[..i] == effects[..i];
      ErrorSticks(Front(effects), runId, i);
    } else {
      assert effects[..i] == effects;
    }
  }

  // ---- Lines of a file ----

  /** Each line and a newline. */
  function JoinedLines(lines: seq<string>): string {
    if lines == [] then "" else lines[0] + ("\n" + JoinedLines(lines[1..]))
  }

  lemma FlatSpan(a: string, b: string)
    requires IsFlat(a) && b != "" && b[0] == '\n'
    ensures Span(c => c != '\n', a + b) == |a|
  {
    forall i | 0 <= i < |a| ensures (a + b)[i] != '\n' {
      assert a[i] in a;
    }
    assert (a + b)[|a|] == '\n';
  }

  lemma SplitStep(x: string, y: string)
    requires IsFlat(x)
    ensures SplitNewlines(x + ("\n" + y)) == [x] + SplitNewlines(y)
  {
    var s := x + ("\n" + y);
    FlatSpan(x, "\n" + y);
    assert s[..|x|] == x && s[|x| + 1..] == y;
  }

  lemma SplitOfNothing()
    ensures SplitNewlines("") == [""]
  {
  }

  lemma Prepended(lines: seq<string>, last: string)
    requires lines != []
    ensures [lines[0]] + (lines[1..] + [last]) == lines + [last]
  {
  }

  lemma {:induction false} JoinedLinesSplit(lines: seq<string>)
    requires forall l | l in lines :: IsFlat(l)
    ensures SplitNewlines(JoinedLines(lines)) == lines + [""]
  {
    if lines == [] {
      SplitOfNothing();
    } else {
      JoinedLinesSplit(lines[1..]);
      SplitStep(lines[0], JoinedLines(lines[1..]));
      Prepended(lines, "");
    }
  }

  lemma {:induction false} JoinedLinesGrow(lines: seq<string>, line: string)
    ensures JoinedLines(lines + [line]) == JoinedLines(lines) + line + "\n"
  {
    var more := lines + [line];
    if lines == [] {
      assert more[0] == line && more[1..] == [];
      assert line + ("\n" + "") == "" + line + "\n";
    } else {
      assert more[0] == lines[0] && more[1..] == lines[1..] + [line];
      JoinedLinesGrow(lines[1..], line);
      GrowStep(lines[0], JoinedLines(lines[1..]), line);
    }
  }

  lemma GrowStep(x: string, y: string, line: string)
    ensures x + ("\n" + (y + line + "\n")) == x + ("\n" + y) + line + "\n"
  {
  }

  lemma {:induction false} EscapedIsFlat(s: string)
    ensures IsFlat(Escaped(s))
  {
    if s != "" {
      EscapedIsFlat(Front(s));
      EscapeIsFlat(LastOf(s));
      FlatConcat(Escaped(Front(s)), EscapeChar(LastOf(s)));
    }
  }

  lemma EscapeIsFlat(c: char)
    ensures IsFlat(EscapeChar(c))
  {
  }

  lemma FlatConcat(a: string, b: string)
    requires IsFlat(a) && IsFlat(b)
    ensures IsFlat(a + b)
  {
  }

  /** A compact document is one line. */
  lemma {:induction false} TextIsFlat(t: Tree, depth: nat)
    requires IsDocument(t)
    ensures IsFlat(Text(t, false, depth))
    decreases t
  {
    match t {
      case JText(s) => EscapedIsFlat(s);
      case JNumber(digits) => NumberIsFlat(digits);
      case JArray(items) =>
        if items != [] {
          ItemsAreFlat(items, depth + 1);
          BracketsAreFlat('[', ItemsText(items, false, depth + 1), ']');
        }
      case JObject(props) =>
        if props != [] {
          PropsAreFlat(props, depth + 1);
          BracketsAreFlat('{', PropsText(props, false, depth + 1), '}');
        }
      case _ =>
    }
  }

  lemma NumberIsFlat(digits: string)
    requires IsNumberWord(digits)
    ensures IsFlat(digits)
  {
    assert forall c | c in digits :: IsWordChar(c);
  }

  lemma BracketsAreFlat(open: char, inner: string, close: char)
    requires IsFlat(inner) && open != '\n' && close != '\n'
    ensures IsFlat([open] + "" + inner + "" + [close])
  {
  }

  lemma {:induction false} ItemsAreFlat(items: seq<Tree>, depth: nat)
    requires items != [] && forall x | x in items :: IsDocument(x)
    ensures IsFlat(ItemsText(items, false, depth))
    decreases items
  {
    TextIsFlat(items[0], depth);
    if |items| > 1 {
      ItemsAreFlat(items[1..], depth);
    }
  }

  lemma {:induction false} PropsAreFlat(props: seq<Prop>, depth: nat)
    requires props != [] && forall p | p in props :: IsDocument(p.value)
    ensures IsFlat(PropsText(props, false, depth))
    decreases props
  {
    TextIsFlat(props[0].value, depth);
    EscapedIsFlat(props[0].key);
    if |props| > 1 {
      PropsAreFlat(props[1..], depth);
    }
  }

  /** A line is a `{...}` text: not blank, nothing to trim, one line. */
  lemma LineIsFlat(extras: Extras, e: AuditEntry)
    requires AreExtras(extras)
    ensures IsFlat(LineOf(extras, e)) && Trimmed(LineOf(extras, e)) == LineOf(extras, e) != ""
  {
    EncodedIsDocument(extras, e);
    TextIsFlat(Encode(extras, e), 0);
    LineIsBraced(extras, e);
    NothingToTrim(LineOf(extras, e));
  }

  lemma LineIsBraced(extras: Extras, e: AuditEntry)
    ensures var line := LineOf(extras, e); line != "" && line[0] == '{' && line[|line| - 1] == '}'
  {
  }

  lemma NothingToTrim(line: string)
    requires line != "" && !IsWhitespace(line[0]) && !IsWhitespace(line[|line| - 1])
    ensures Trimmed(line) == line
  {
    assert Span(IsWhitespace, line) == 0 && TrimStart(line) == line;
  }

  // ---- Refinement ----

  /** `line` stands for `e`: one line, nothing to trim, and its facts read back. */
  predicate IsLineFor(line: string, e: AuditEntry) {
    && IsFlat(line) && Trimmed(line) == line != ""
    && ParseAuditEntryLine(line) == Ok(LineFacts(e.runId, e.recordIndex, e.succeeded))
  }

  lemma WrittenLine(extras: Extras, e: AuditEntry)
    requires AreExtras(extras)
    ensures IsLineFor(LineOf(extras, e), e)
  {
    LineIsFlat(extras, e);
    LineReadsBack(extras, e);
  }

  ghost predicate AreLinesFor(lines: seq<string>, entries: seq<AuditEntry>) {
    |lines| == |entries| && forall i | 0 <= i < |lines| :: IsLineFor(lines[i], entries[i])
  }

  function FactsOf(e: AuditEntry): LineFacts {
    LineFacts(e.runId, e.recordIndex, e.succeeded)
  }

  lemma {:induction false} FactsGiveCursor(effects: seq<Result<Option<LineFacts>, LineError>>, entries: seq<AuditEntry>,
                                           runId: string)
    requires |effects| == |entries| && forall i | 0 <= i < |effects| :: effects[i] == Ok(Some(FactsOf(entries[i])))
    ensures Gathered(effects, runId) == Ok(CursorOf(entries, runId))
  {
    if effects != [] {
      FactsGiveCursor(Front(effects), Front(entries), runId);
      assert LastOf(effects) == Ok(Some(FactsOf(LastOf(entries))));
      assert CursorOf(Front(entries), runId) + [] == CursorOf(Front(entries), runId);
    }
  }

  lemma BlankLineIsPadding(lines: seq<string>, runId: string)
    ensures Gathered(Effects(lines + [""]), runId) == Gathered(Effects(lines), runId)
  {
    assert Trimmed("") == "";
    assert Front(Effects(lines + [""])) == Effects(lines) && LastOf(Effects(lines + [""])) == Ok(None);
  }

  /** The file's cursor is the in-memory log's, for every run. */
  lemma JsonlCursorIsMemoryCursor(lines: seq<string>, entries: seq<AuditEntry>, runId: string)
    requires AreLinesFor(lines, entries)
    ensures CursorOfText(JoinedLines(lines), runId) == Ok(CursorOf(entries, runId))
  {
    forall i | 0 <= i < |lines| ensures IsFlat(lines[i]) && Effects(lines)[i] == Ok(Some(FactsOf(entries[i]))) {
      assert IsLineFor(lines[i], entries[i]);
    }
    JoinedLinesSplit(lines);
    FactsGiveCursor(Effects(lines), entries, runId);
    BlankLineIsPadding(lines, runId);
  }

  // ---- The adapter ----

  class JsonlAuditLog {
    const extras: Extras
    var file: Option<string>
    var parentEnsured: bool
    ghost var lines: seq<string>
    ghost var entries: seq<AuditEntry>

    /** The file holds one line for each entry appended. */
    ghost predicate Valid()
      reads this
    {
      && AreExtras(extras) && AreLinesFor(lines, entries)
      && (if file.None? then entries == [] else file.value == JoinedLines(lines))
    }

    constructor (extras: Extras)
      requires AreExtras(extras)
      ensures Valid() && this.extras == extras && entries == [] && !parentEnsured
    {
      this.extras, file, parentEnsured, lines, entries := extras, None, false, [], [];
    }

    /** The directory is created on the first call that manages to; an append that does not land changes nothing. */
    method Append(e: AuditEntry, mkdir: IoOutcome, outcome: IoOutcome) returns (landed: bool)
      requires Valid()
      modifies this
      ensures Valid() && parentEnsured == (old(parentEnsured) || mkdir.Works?)
      ensures landed == (parentEnsured && Lands(outcome))
      ensures entries == if landed then old(entries) + [e] else old(entries)
      ensures file == if landed then Some((if old(file).Some? then old(file).value else "") + LineOf(extras, e) + "\n")
                      else old(file)
    {
      if !parentEnsured {
        if !mkdir.Works? {
          return false;
        }
        parentEnsured := true;
      }
      landed := Lands(outcome);
      if landed {
        AppendLine(e);
      }
    }

    method AppendLine(e: AuditEntry)
      requires Valid()
      modifies this
      ensures Valid() && entries == old(entries) + [e] && parentEnsured == old(parentEnsured)
      ensures file == Some((if old(file).Some? then old(file).value else "") + LineOf(extras, e) + "\n")
    {
      var line := LineOf(extras, e);
      var before := if file.Some? then file.value else "";
      WrittenLine(extras, e);
      JoinedLinesGrow(lines, line);
      file := Some(before + line + "\n");
      lines, entries := lines + [line], entries + [e];
    }

    /** Never malformed, and the same indexes as the in-memory log would give. */
    method Cursor(runId: string) returns (r: Result<seq<nat>, LineError>)
      requires Valid()
      ensures r == Ok(CursorOf(entries, runId))
    {
      if file.None? {
        return Ok([]);
      }
      JsonlCursorIsMemoryCursor(lines, entries, runId);
      r := ReadCursor(file.value, runId);
    }
  }

  /** The loop over the lines of any text. */
  method ReadCursor(text: string, runId: string) returns (r: Result<seq<nat>, LineError>)
    ensures r == CursorOfText(text, runId)
  {
    var out, lines := [], SplitNewlines(text);
    ghost var effects := Effects(lines);
    for i := 0 to |lines|
      invariant Gathered(effects[..i], runId) == Ok(out)
    {
      assert Front(effects[..i + 1]) == effects[..i] && LastOf(effects[..i + 1]) == Effect(lines[i]);
      var line := Trimmed(lines[i]);
      if line == "" {
        continue;
      }
      var entry := ParseAuditEntryLine(line);
      if entry.Err? {
        ErrorSticks(effects, runId, i + 1);
        return Err(entry.error);
      }
      if entry.value.runId == runId && entry.value.succeeded {
        out := out + [entry.value.index];
      }
    }
    assert effects[..|lines|] == effects;
    r := Ok(out);
  }
}
