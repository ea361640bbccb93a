/** Provenance of generated artifacts, in both of its carriers: the JSDoc header and the `x-nekostack` object. */
module Artifacts {
  import opened Values
  import opened Lexing
  import opened Json
  import opened JsonReading
  import opened Canonical
  import opened Headers
  import opened HeaderText

  datatype FieldName = Generator | GeneratorVersion | SchemaId | SchemaVersion | IrHash | SourceHash

  function Label(f: FieldName): string {
    match f
    case Generator => "generator"
    case GeneratorVersion => "generatorVersion"
    case SchemaId => "schemaId"
    case SchemaVersion => "schemaVersion"
    case IrHash => "irHash"
    case SourceHash => "sourceHash"
  }

  datatype Provenance = Provenance(
    generator: string, generatorVersion: string,
    schemaId: Option<string>, schemaVersion: Option<string>,
    irHash: string, sourceHash: Option<string>)

  /** `null` stands for an absent id or version. */
  function OrNull(v: Option<string>): string {
    if v.Some? then v.value else "null"
  }

  /** The text of each field that is present. */
  function ValueOf(p: Provenance, f: FieldName): Option<string> {
    match f
    case Generator => Some(p.generator)
    case GeneratorVersion => Some(p.generatorVersion)
    case SchemaId => Some(OrNull(p.schemaId))
    case SchemaVersion => Some(OrNull(p.schemaVersion))
    case IrHash => Some(p.irHash)
    case SourceHash => p.sourceHash
  }

  // ---- Writing the header ----

  const OPENING := "@generated by @nekostack/schema"
  const ANONYMOUS := "// anonymous schema"
  const CLOSING_TAIL := " NOT EDIT MANUALLY."

  function HeadLines(p: Provenance): seq<Line> {
    [NoteLine(" * " + OPENING)] + if p.schemaId.None? then [NoteLine(" * " + ANONYMOUS)] else []
  }

  function FieldLines(p: Provenance): seq<Line> {
    [ AlignedLine(Label(SchemaId), OrNull(p.schemaId)), AlignedLine(Label(SchemaVersion), OrNull(p.schemaVersion)),
      AlignedLine(Label(IrHash), p.irHash) ]
    + (if p.sourceHash.Some? then [AlignedLine(Label(SourceHash), p.sourceHash.value)] else [])
    + [AlignedLine(Label(Generator), p.generator), AlignedLine(Label(GeneratorVersion), p.generatorVersion)]
  }

  function TailLines(): seq<Line> {
    [NoteLine(" *"), NoteLine(" * " + ("DO" + CLOSING_TAIL))]
  }

  function HeaderLines(p: Provenance): seq<Line> {
    HeadLines(p) + FieldLines(p) + TailLines()
  }

  method BuildHeader(p: Provenance) returns (header: string)
    ensures header == HeaderOf(HeaderLines(p))
  {
    var lines := [NoteLine(" * " + OPENING)];
    if p.schemaId == None {
      lines := lines + [NoteLine(" * " + ANONYMOUS)];
    }
    lines := lines + [ AlignedLine(Label(SchemaId), OrNull(p.schemaId)), AlignedLine(Label(SchemaVersion), OrNull(p.schemaVersion)),
                       AlignedLine(Label(IrHash), p.irHash) ];
    if p.sourceHash != None {
      lines := lines + [AlignedLine(Label(SourceHash), p.sourceHash.value)];
    }
    lines := lines + [AlignedLine(Label(Generator), p.generator), AlignedLine(Label(GeneratorVersion), p.generatorVersion)];
    lines := lines + TailLines();
    assert lines == HeaderLines(p);
    header := HeaderOf(lines);
  }

  // ---- Reading ----

  datatype ProvenanceError =
    | UnknownFormat
    | MissingProvenance
    | JsonParseError
    | MissingField(name: FieldName)
    | MalformedField(name: FieldName)
    | MalformedHash(name: FieldName)

  function Known(fields: map<string, string>): map<FieldName, string> {
    map f: FieldName | Label(f) in fields :: fields[Label(f)]
  }

  function FromNull(raw: string): Option<string> {
    if raw == "null" then None else Some(raw)
  }

  /** Presence in a fixed order, then the hashes. */
  function Assembled(known: map<FieldName, string>): Result<Provenance, ProvenanceError> {
    if Generator !in known then Err(MissingField(Generator))
    else if GeneratorVersion !in known then Err(MissingField(GeneratorVersion))
    else if SchemaId !in known then Err(MissingField(SchemaId))
    else if SchemaVersion !in known then Err(MissingField(SchemaVersion))
    else if IrHash !in known then Err(MissingField(IrHash))
    else if !IsSha256(known[IrHash]) then Err(MalformedHash(IrHash))
    else if SourceHash in known && !IsSha256(known[SourceHash]) then Err(MalformedHash(SourceHash))
    else
      Ok(Provenance(
        known[Generator], known[GeneratorVersion], FromNull(known[SchemaId]), FromNull(known[SchemaVersion]),
        known[IrHash], if SourceHash in known then Some(known[SourceHash]) else None))
  }

  const PROVENANCE_KEY := "x-nekostack"

  const JSON_FIELDS := [Generator, GeneratorVersion, SchemaId, SchemaVersion, IrHash, SourceHash]

  /** The fields of the block: strings as they are, `null` as the text `null`, nothing else. */
  function BlockFields(block: seq<Prop>, names: seq<FieldName>): Result<map<FieldName, string>, ProvenanceError> {
    if names == [] then Ok(map[])
    else
      match BlockFields(block, Front(names))
      case Err(e) => Err(e)
      case Ok(fields) =>
        match PropOf(block, Label(LastOf(names)))
        case JUndefined => Ok(fields)
        case JNull => Ok(fields[LastOf(names) := "null"])
        case JText(s) => Ok(fields[LastOf(names) := s])
        case _ => Err(MalformedField(LastOf(names)))
  }

  function ParseJson(content: string): Result<Provenance, ProvenanceError> {
    match ReadJson(content)
    case None => Err(JsonParseError)
    case Some(doc) =>
      if !doc.JObject? then Err(MissingProvenance)
      else
        var block := PropOf(doc.props, PROVENANCE_KEY);
        if !block.JObject? then Err(MissingProvenance)
        else
          match BlockFields(block.props, JSON_FIELDS)
          case Err(e) => Err(e)
          case Ok(fields) => Assembled(fields)
  }

  function ParseHeader(content: string): Result<Provenance, ProvenanceError> {
    match BlockOf(content)
    case None => Err(MissingProvenance)
    case Some(block) => Assembled(Known(FieldsOf(SplitLines(block))))
  }

  /** The first character that is no whitespace tells the carrier. */
  function ParseProvenance(content: string): Result<Provenance, ProvenanceError> {
    var trimmed := TrimStart(content);
    if "/**" <= trimmed then ParseHeader(content)
    else if "{" <= trimmed then ParseJson(content)
    else Err(UnknownFormat)
  }

  method ReadBlockFields(block: seq<Prop>) returns (r: Result<map<FieldName, string>, ProvenanceError>)
    ensures r == BlockFields(block, JSON_FIELDS)
  {
    var fields: map<FieldName, string> := map[];
    for i := 0 to |JSON_FIELDS|
      invariant BlockFields(block, JSON_FIELDS[..i]) == Ok(fields)
    {
      var name := JSON_FIELDS[i];
      BlockFieldsStep(block, JSON_FIELDS, i);
      match PropOf(block, Label(name)) {
        case JUndefined =>
        case JNull => fields := fields[name := "null"];
        case JText(s) => fields := fields[name := s];
        case _ => return Err(MalformedField(name));
      }
    }
    assert JSON_FIELDS[..|JSON_FIELDS|] == JSON_FIELDS;
    r := Ok(fields);
  }

  lemma {:induction false} BlockErrorSticks(block: seq<Prop>, names: seq<FieldName>, i: nat)
    requires i <= |names| && BlockFields(block, names[..i]).Err?
    ensures BlockFields(block, names) == BlockFields(block, names[..i])
    decreases |names|
  {
    if i < |names| {
      assert Front(names)[..i] == names[..i];
      BlockErrorSticks(block, Front(names), i);
    } else {
      assert names[..i] == names;
    }
  }

  lemma BlockFieldsStep(block: seq<Prop>, names: seq<FieldName>, i: nat)
    requires i < |names|
    ensures Front(names[..i + 1]) == names[..i] && LastOf(names[..i + 1]) == names[i]
    ensures BlockFields(block, names[..i + 1]).Err? ==> BlockFields(block, names) == BlockFields(block, names[..i + 1])
  {
    if BlockFields(block, names[..i + 1]).Err? {
      BlockErrorSticks(block, names, i + 1);
    }
  }
}
