/** Migration stubs and the provenance parser that reads them back. */
module Stub {
  import opened Values
  import opened JsonText
  import opened Registries
  import opened Headers
  import opened HeaderText

  datatype FieldName =
    | Generator | GeneratorVersion
    | SchemaId | FromVersion | ToVersion
    | FromIrHash | ToIrHash | FromSourceHash | ToSourceHash

  function Label(f: FieldName): string {
    match f
    case Generator => "generator"
    case GeneratorVersion => "generatorVersion"
    case SchemaId => "schemaId"
    case FromVersion => "fromVersion"
    case ToVersion => "toVersion"
    case FromIrHash => "fromIrHash"
    case ToIrHash => "toIrHash"
    case FromSourceHash => "fromSourceHash"
    case ToSourceHash => "toSourceHash"
  }

  predicate IsHashField(f: FieldName) {
    f.FromIrHash? || f.ToIrHash? || f.FromSourceHash? || f.ToSourceHash?
  }

  datatype MigrationHeader = MigrationHeader(
    generator: string, generatorVersion: string,
    schemaId: string, fromVersion: string, toVersion: string,
    fromIrHash: string, toIrHash: string, fromSourceHash: string, toSourceHash: string)

  function ValueOf(h: MigrationHeader, f: FieldName): string {
    match f
    case Generator => h.generator
    case GeneratorVersion => h.generatorVersion
    case SchemaId => h.schemaId
    case FromVersion => h.fromVersion
    case ToVersion => h.toVersion
    case FromIrHash => h.fromIrHash
    case ToIrHash => h.toIrHash
    case FromSourceHash => h.fromSourceHash
    case ToSourceHash => h.toSourceHash
  }

  // ---- Writing ----

  const GENERATOR_VERSION := "@nekostack/schema@1.0.4"
  const STUB_GENERATOR := "neko-schema-migrate-stub"

  const STUB_ORDER := [
    SchemaId, FromVersion, ToVersion, FromIrHash, ToIrHash, FromSourceHash, ToSourceHash, Generator, GeneratorVersion]

  const OPENING := "@migration by @nekostack/schema"
  const CLOSING_TAIL := " NOT REMOVE THE HEADER." + " Authors EDIT THE BODY."
  const CLOSING := "DO" + CLOSING_TAIL

  function StubFields(h: MigrationHeader): seq<Line> {
    seq(|STUB_ORDER|, i requires 0 <= i < |STUB_ORDER| => AlignedLine(Label(STUB_ORDER[i]), ValueOf(h, STUB_ORDER[i])))
  }

  function StubLines(h: MigrationHeader): seq<Line> {
    [NoteLine(" * " + OPENING)] + StubFields(h) + [NoteLine(" *"), NoteLine(" * " + CLOSING)]
  }

  function StubBody(schemaId: string, from: string, to: string): string {
    var id, f, t := Stringified(schemaId), Stringified(from), Stringified(to);
    "\nimport type { Migration } from \"@nekostack/schema/cli\";\n\n"
    + "const migration: Migration<" + id + ", " + f + ", " + t + "> = {\n"
    + "  schemaId: " + id + ",\n  from: " + f + ",\n  to: " + t + ",\n"
    + "  transform(input) {\n    // Author fills this in.\n    throw new Error(\"Not yet implemented\");\n  },\n};\n\n"
    + "export default migration;\n"
  }

  function RenderStubContent(h: MigrationHeader): string {
    HeaderOf(StubLines(h)) + StubBody(h.schemaId, h.fromVersion, h.toVersion)
  }

  datatype StubError = EndpointsMissing(from: bool, to: bool)

  function StubHeader(schemaId: string, from: string, to: string, f: SchemaEntry, t: SchemaEntry): MigrationHeader {
    MigrationHeader(STUB_GENERATOR, GENERATOR_VERSION, schemaId, from, to, f.irHash, t.irHash, f.sourceHash, t.sourceHash)
  }

  /** The file content of a stub, when both versions are registered. */
  function StubMigration(schemas: SchemaRegistry, schemaId: string, from: string, to: string): Result<string, StubError> {
    var f, t := FindSchema(schemas, schemaId, from), FindSchema(schemas, schemaId, to);
    if f.None? || t.None? then Err(EndpointsMissing(f.None?, t.None?))
    else Ok(RenderStubContent(StubHeader(schemaId, from, to, f.value, t.value)))
  }

  // ---- Reading ----

  datatype ProvenanceError =
    | UnknownFormat
    | MissingProvenance
    | MissingField(name: FieldName)
    | MalformedField(name: FieldName)
    | MalformedHash(name: FieldName)

  const REQUIRED_FIELDS := [
    Generator, GeneratorVersion, SchemaId, FromVersion, ToVersion, FromIrHash, ToIrHash, FromSourceHash, ToSourceHash]

  const HASH_FIELDS := [FromIrHash, ToIrHash, FromSourceHash, ToSourceHash]

  function First(bad: FieldName -> bool, names: seq<FieldName>): (r: Option<FieldName>)
    ensures r.None? <==> forall n | n in names :: !bad(n)
  {
    if names == [] then None
    else if bad(names[0]) then Some(names[0])
    else
      assert forall n :: n in names <==> n == names[0] || n in names[1..];
      First(bad, names[1..])
  }

  /** The fields whose names the parser knows. */
  function Known(fields: map<string, string>): map<FieldName, string> {
    map f: FieldName | Label(f) in fields :: fields[Label(f)]
  }

  function IsAbsent(known: map<FieldName, string>): FieldName -> bool {
    f => f !in known
  }

  function IsEmpty(known: map<FieldName, string>): FieldName -> bool {
    f => f in known && |known[f]| == 0
  }

  function IsUnhashed(known: map<FieldName, string>): FieldName -> bool {
    f => f in known && !IsSha256(known[f])
  }

  predicate IsComplete(known: map<FieldName, string>) {
    forall f: FieldName :: f in known
  }

  function HeaderFrom(known: map<FieldName, string>): (h: MigrationHeader)
    requires IsComplete(known)
  {
    MigrationHeader(
      known[Generator], known[GeneratorVersion], known[SchemaId], known[FromVersion], known[ToVersion],
      known[FromIrHash], known[ToIrHash], known[FromSourceHash], known[ToSourceHash])
  }

  /** The first absent field decides, then the first empty one, then the first that is no hash. */
  function Assembled(known: map<FieldName, string>): Result<MigrationHeader, ProvenanceError> {
    match First(IsAbsent(known), REQUIRED_FIELDS)
    case Some(n) => Err(MissingField(n))
    case None =>
      NoneAbsent(known);
      match First(IsEmpty(known), REQUIRED_FIELDS)
      case Some(n) => Err(MalformedField(n))
      case None =>
        match First(IsUnhashed(known), HASH_FIELDS)
        case Some(n) => Err(MalformedHash(n))
        case None => Ok(HeaderFrom(known))
  }

  lemma FieldsAreListed(f: FieldName)
    ensures f in REQUIRED_FIELDS
    ensures IsHashField(f) ==> f in HASH_FIELDS
  {
    match f {
      case Generator => assert REQUIRED_FIELDS[0] == f;
      case GeneratorVersion => assert REQUIRED_FIELDS[1] == f;
      case SchemaId => assert REQUIRED_FIELDS[2] == f;
      case FromVersion => assert REQUIRED_FIELDS[3] == f;
      case ToVersion => assert REQUIRED_FIELDS[4] == f;
      case FromIrHash => assert REQUIRED_FIELDS[5] == f && HASH_FIELDS[0] == f;
      case ToIrHash => assert REQUIRED_FIELDS[6] == f && HASH_FIELDS[1] == f;
      case FromSourceHash => assert REQUIRED_FIELDS[7] == f && HASH_FIELDS[2] == f;
      case ToSourceHash => assert REQUIRED_FIELDS[8] == f && HASH_FIELDS[3] == f;
    }
  }

  lemma NoneAbsent(known: map<FieldName, string>)
    ensures First(IsAbsent(known), REQUIRED_FIELDS).None? <==> IsComplete(known)
  {
    if First(IsAbsent(known), REQUIRED_FIELDS).None? {
      forall f: FieldName ensures f in known {
        FieldsAreListed(f);
        assert !IsAbsent(known)(f);
      }
    }
  }

  function ParseMigrationProvenance(content: string): Result<MigrationHeader, ProvenanceError> {
    if !("/**" <= TrimStart(content)) then Err(UnknownFormat)
    else
      match BlockOf(content)
      case None => Err(MissingProvenance)
      case Some(block) => Assembled(Known(FieldsOf(SplitLines(block))))
  }

  method FindFirst(bad: FieldName -> bool, names: seq<FieldName>) returns (r: Option<FieldName>)
    ensures r == First(bad, names)
  {
    for i := 0 to |names|
      invariant First(bad, names) == First(bad, names[i..])
    {
      if bad(names[i]) {
        return Some(names[i]);
      }
    }
    r := None;
  }

  method AssembleMigrationProvenance(known: map<FieldName, string>) returns (r: Result<MigrationHeader, ProvenanceError>)
    ensures r == Assembled(known)
  {
    var absent := FindFirst(IsAbsent(known), REQUIRED_FIELDS);
    if absent.Some? {
      return Err(MissingField(absent.value));
    }
    NoneAbsent(known);
    var empty := FindFirst(IsEmpty(known), REQUIRED_FIELDS);
    if empty.Some? {
      return Err(MalformedField(empty.value));
    }
    var unhashed := FindFirst(IsUnhashed(known), HASH_FIELDS);
    if unhashed.Some? {
      return Err(MalformedHash(unhashed.value));
    }
    r := Ok(HeaderFrom(known));
  }

  method ParseMigrationProvenanceFromText(content: string) returns (r: Result<MigrationHeader, ProvenanceError>)
    ensures r == ParseMigrationProvenance(content)
  {
    if !("/**" <= TrimStart(content)) {
      return Err(UnknownFormat);
    }
    var block := BlockOf(content);
    if block.None? {
      return Err(MissingProvenance);
    }
    var fields := ReadFields(block.value);
    r := AssembleMigrationProvenance(Known(fields));
  }

  // ---- Round trip ----

  /** What a header must be made of to survive being written and read. */
  predicate IsCleanHeader(h: MigrationHeader) {
    forall f: FieldName :: IsClean(ValueOf(h, f)) && (IsHashField(f) ==> IsSha256(ValueOf(h, f)))
  }

  lemma LabelsAreNames(f: FieldName)
    ensures IsName(Label(f)) && |Label(f)| < LABEL_WIDTH - 1
  {
  }

  lemma LabelsDiffer(f: FieldName, g: FieldName)
    ensures Label(f) == Label(g) ==> f == g
  {
    assert |Label(f)| == |Label(g)| && f != g ==> Label(f)[0] != Label(g)[0];
  }

  lemma OpeningIsProper()
    ensures IsProper(NoteLine(" * " + OPENING))
  {
    assert OPENING[0] == '@' && "" + OPENING == OPENING;
    NoteIsProper("", OPENING);
  }

  lemma ClosingIsProper()
    ensures IsProper(NoteLine(" * " + CLOSING))
  {
    var space := CLOSING_TAIL[0];
    assert space == ' ';
    assert !IsNameChar(space);
    NoteIsProper("DO", CLOSING_TAIL);
  }

  /** Every value stays on its line. */
  predicate IsOneLineHeader(h: MigrationHeader) {
    forall f: FieldName :: IsOneLine(ValueOf(h, f))
  }

  lemma StubLinesAreProper(h: MigrationHeader)
    requires IsOneLineHeader(h)
    ensures forall l | l in StubLines(h) :: IsProper(l)
  {
    OpeningIsProper();
    ClosingIsProper();
    BareStar();
    assert IsProper(NoteLine(" *"));
    StubFieldsAreProper(h);
  }

  lemma StubFieldsAreProper(h: MigrationHeader)
    requires IsOneLineHeader(h)
    ensures forall l | l in StubFields(h) :: IsProper(l)
  {
    forall i | 0 <= i < |StubFields(h)| ensures IsProper(StubFields(h)[i]) {
      FieldIsProper(h, STUB_ORDER[i]);
    }
  }

  lemma FieldIsProper(h: MigrationHeader, f: FieldName)
    requires IsOneLineHeader(h)
    ensures IsProper(AlignedLine(Label(f), ValueOf(h, f)))
  {
    LabelsAreNames(f);
    assert IsOneLine(ValueOf(h, f));
  }

  function Position(f: FieldName): nat {
    match f
    case SchemaId => 0
    case FromVersion => 1
    case ToVersion => 2
    case FromIrHash => 3
    case ToIrHash => 4
    case FromSourceHash => 5
    case ToSourceHash => 6
    case Generator => 7
    case GeneratorVersion => 8
  }

  lemma StubOrderIsComplete(f: FieldName, i: nat)
    requires i < |STUB_ORDER|
    ensures Position(f) < |STUB_ORDER| && STUB_ORDER[Position(f)] == f
    ensures STUB_ORDER[i] == f ==> i == Position(f)
  {
  }

  lemma LineOfLabel(h: MigrationHeader, f: FieldName, j: nat)
    requires j < |StubLines(h)| && StubLines(h)[j].FieldLine? && StubLines(h)[j].key == Label(f)
    ensures j == Position(f) + 1 && StubLines(h)[j] == AlignedLine(Label(f), ValueOf(h, f))
  {
    assert j - 1 < |STUB_ORDER| && StubLines(h)[j] == StubFields(h)[j - 1];
    StubOrderIsComplete(f, j - 1);
    LabelsDiffer(STUB_ORDER[j - 1], f);
  }

  /** What the line of a field reads as. */
  function ReadField(h: MigrationHeader, f: FieldName): Option<string> {
    ReadAs(AlignedLine(Label(f), ValueOf(h, f)))
  }

  function FieldsRead(h: MigrationHeader): map<FieldName, string> {
    map f: FieldName | ReadField(h, f).Some? :: ReadField(h, f).value
  }

  /** Each field that is readable is recorded under its label, as it reads. */
  lemma StubFieldIsRecorded(h: MigrationHeader, f: FieldName)
    ensures Label(f) in Recorded(StubLines(h)) <==> ReadField(h, f).Some?
    ensures ReadField(h, f).Some? ==> Recorded(StubLines(h))[Label(f)] == ReadField(h, f).value
  {
    var lines, at := StubLines(h), Position(f) + 1;
    StubOrderIsComplete(f, 0);
    assert lines[at] == StubFields(h)[Position(f)];
    if ReadField(h, f).Some? {
      forall j | at < j < |lines| && lines[j].FieldLine? ensures lines[j].key != lines[at].key {
        if lines[j].key == Label(f) {
          LineOfLabel(h, f, j);
        }
      }
      RecordedAt(lines, at);
    } else if Label(f) in Recorded(lines) {
      RecordedKeys(lines, Label(f));
      var i :| 0 <= i < |lines| && lines[i].FieldLine? && lines[i].key == Label(f) && ReadAs(lines[i]).Some?;
      LineOfLabel(h, f, i);
    }
  }

  lemma SameFieldsSameHeader(h: MigrationHeader, g: MigrationHeader)
    requires forall f: FieldName :: ValueOf(h, f) == ValueOf(g, f)
    ensures h == g
  {
    assert ValueOf(h, Generator) == ValueOf(g, Generator) && ValueOf(h, GeneratorVersion) == ValueOf(g, GeneratorVersion);
    assert ValueOf(h, SchemaId) == ValueOf(g, SchemaId);
    assert ValueOf(h, FromVersion) == ValueOf(g, FromVersion) && ValueOf(h, ToVersion) == ValueOf(g, ToVersion);
    assert ValueOf(h, FromIrHash) == ValueOf(g, FromIrHash) && ValueOf(h, ToIrHash) == ValueOf(g, ToIrHash);
    assert ValueOf(h, FromSourceHash) == ValueOf(g, FromSourceHash) && ValueOf(h, ToSourceHash) == ValueOf(g, ToSourceHash);
  }

  lemma HeaderFromFields(known: map<FieldName, string>, f: FieldName)
    requires IsComplete(known)
    ensures ValueOf(HeaderFrom(known), f) == known[f]
  {
  }

  lemma NoneEmpty(known: map<FieldName, string>)
    requires forall f | f in known :: known[f] != ""
    ensures First(IsEmpty(known), REQUIRED_FIELDS).None?
  {
    assert forall f: FieldName :: !IsEmpty(known)(f);
  }

  lemma NoneUnhashed(known: map<FieldName, string>)
    requires forall f | f in known && f in HASH_FIELDS :: IsSha256(known[f])
    ensures First(IsUnhashed(known), HASH_FIELDS).None?
  {
    assert forall f | f in HASH_FIELDS :: !IsUnhashed(known)(f);
  }

  lemma CleanAssembles(known: map<FieldName, string>, h: MigrationHeader)
    requires IsComplete(known) && forall f: FieldName :: known[f] == ValueOf(h, f)
    requires IsCleanHeader(h)
    ensures Assembled(known) == Ok(h)
  {
    NoneAbsent(known);
    forall f: FieldName
      ensures known[f] != "" && (f in HASH_FIELDS ==> IsSha256(known[f]))
      ensures ValueOf(HeaderFrom(known), f) == ValueOf(h, f)
    {
      assert IsClean(ValueOf(h, f));
      HashFieldsAreHashes(f);
      HeaderFromFields(known, f);
    }
    NoneEmpty(known);
    NoneUnhashed(known);
    SameFieldsSameHeader(HeaderFrom(known), h);
  }

  lemma HashFieldsAreHashes(f: FieldName)
    ensures f in HASH_FIELDS ==> IsHashField(f)
  {
  }

  lemma AssembledIsClean(known: map<FieldName, string>)
    requires Assembled(known).Ok? && forall f | f in known :: IsClean(known[f])
    ensures IsCleanHeader(Assembled(known).value)
  {
    NoneAbsent(known);
    forall f: FieldName
      ensures IsClean(ValueOf(HeaderFrom(known), f))
      ensures IsHashField(f) ==> IsSha256(ValueOf(HeaderFrom(known), f))
    {
      HeaderFromFields(known, f);
      FieldsAreListed(f);
      assert f in HASH_FIELDS ==> !IsUnhashed(known)(f);
    }
  }

  /** Whatever the parser accepts is clean, whatever the text. */
  lemma ParsedIsClean(content: string)
    requires ParseMigrationProvenance(content).Ok?
    ensures IsCleanHeader(ParseMigrationProvenance(content).value)
  {
    var block := BlockOf(content).value;
    ReadValuesAreClean(content);
    BlockIsClean(FieldsOf(SplitLines(block)));
  }

  lemma BlockIsClean(fields: map<string, string>)
    requires AllClean(fields)
    ensures Assembled(Known(fields)).Ok? ==> IsCleanHeader(Assembled(Known(fields)).value)
  {
    if Assembled(Known(fields)).Ok? {
      KnownAreClean(fields);
      AssembledIsClean(Known(fields));
    }
  }

  lemma KnownAreClean(fields: map<string, string>)
    requires AllClean(fields)
    ensures forall f | f in Known(fields) :: IsClean(Known(fields)[f])
  {
  }

  /** A stub whose values stay on their lines parses to what those lines read as, clean or not. */
  lemma StubReadsAs(h: MigrationHeader)
    requires IsOneLineHeader(h)
    ensures ParseMigrationProvenance(RenderStubContent(h)) == Assembled(FieldsRead(h))
  {
    var body := StubBody(h.schemaId, h.fromVersion, h.toVersion);
    StubLinesAreProper(h);
    HeaderReadsBack(StubLines(h), body);
    StubFieldsRead(h);
    HeaderOpens(StubLines(h), body);
  }

  lemma StubFieldsRead(h: MigrationHeader)
    ensures Known(Recorded(StubLines(h))) == FieldsRead(h)
  {
    forall f: FieldName
      ensures f in Known(Recorded(StubLines(h))) <==> f in FieldsRead(h)
      ensures f in FieldsRead(h) ==> Known(Recorded(StubLines(h)))[f] == FieldsRead(h)[f]
    {
      StubFieldIsRecorded(h, f);
    }
  }

  lemma CleanFieldReads(h: MigrationHeader, f: FieldName)
    requires IsClean(ValueOf(h, f))
    ensures ReadField(h, f) == Some(ValueOf(h, f)) && IsOneLine(ValueOf(h, f))
  {
    CleanReads(AlignedLine(Label(f), ValueOf(h, f)));
  }

  lemma CleanFieldsAssemble(h: MigrationHeader)
    requires IsCleanHeader(h)
    ensures IsOneLineHeader(h) && Assembled(FieldsRead(h)) == Ok(h)
  {
    forall f: FieldName
      ensures f in FieldsRead(h) && FieldsRead(h)[f] == ValueOf(h, f) && IsOneLine(ValueOf(h, f))
    {
      CleanFieldReads(h, f);
    }
    CleanAssembles(FieldsRead(h), h);
  }

  lemma CleanStubReadsBack(h: MigrationHeader)
    requires IsCleanHeader(h)
    ensures ParseMigrationProvenance(RenderStubContent(h)) == Ok(h)
  {
    CleanFieldsAssemble(h);
    StubReadsAs(h);
  }

  /** Clean but for its id, which is blank and on one line. */
  predicate HasBlankId(h: MigrationHeader) {
    && (forall f: FieldName | f != SchemaId :: IsClean(ValueOf(h, f)) && (IsHashField(f) ==> IsSha256(ValueOf(h, f))))
    && IsOneLine(h.schemaId) && forall x | x in h.schemaId :: IsWhitespace(x)
  }

  lemma BlankFieldsAssemble(h: MigrationHeader) returns (c: char)
    requires HasBlankId(h)
    ensures IsWhitespace(c) && IsOneLineHeader(h) && Assembled(FieldsRead(h)) == Ok(h.(schemaId := [c]))
  {
    var line := AlignedLine(Label(SchemaId), h.schemaId);
    LabelsAreNames(SchemaId);
    PaddedBlankIsRead(line);
    c := ReadAs(line).value[0];
    var g := h.(schemaId := [c]);
    ReadIsClean(line);
    assert [c] == ReadAs(line).value;
    forall f: FieldName
      ensures f in FieldsRead(h) && FieldsRead(h)[f] == ValueOf(g, f) && IsOneLine(ValueOf(h, f))
      ensures IsClean(ValueOf(g, f)) && (IsHashField(f) ==> IsSha256(ValueOf(g, f)))
    {
      if f != SchemaId {
        assert ValueOf(g, f) == ValueOf(h, f);
        CleanFieldReads(h, f);
      }
    }
    CleanAssembles(FieldsRead(h), g);
  }

  /** A blank id is not refused: the stub parses, with an id of one whitespace character. */
  lemma BlankIdIsAccepted(h: MigrationHeader) returns (c: char)
    requires HasBlankId(h)
    ensures IsWhitespace(c) && ParseMigrationProvenance(RenderStubContent(h)) == Ok(h.(schemaId := [c]))
  {
    c := BlankFieldsAssemble(h);
    StubReadsAs(h);
  }

  lemma ReadIsClean(l: Line)
    requires l.FieldLine? && IsOneLine(l.value) && ReadAs(l).Some?
    ensures IsClean(ReadAs(l).value)
  {
    SpacesAreSpaces(l.pad);
    StarlessIsOneLine(Spaces(l.pad));
    OneLineConcat(Spaces(l.pad), l.value);
    FieldValueIsClean(Spaces(l.pad) + l.value);
  }

  /** Parsing recovers all nine fields of a stub exactly when every field is clean and every hash is one. */
  lemma StubRoundTripIffClean(h: MigrationHeader)
    ensures ParseMigrationProvenance(RenderStubContent(h)) == Ok(h) <==> IsCleanHeader(h)
  {
    if IsCleanHeader(h) {
      CleanStubReadsBack(h);
    }
    if ParseMigrationProvenance(RenderStubContent(h)) == Ok(h) {
      ParsedIsClean(RenderStubContent(h));
    }
  }
}
