/** What the provenance parser gets back from the two carriers. */
module ArtifactReading {
  import opened Values
  import opened JsonText
  import opened Lexing
  import opened Json
  import opened JsonReading
  import opened Canonical
  import opened KeyOrder
  import opened Headers
  import opened HeaderText
  import opened Artifacts

  // ---- The header ----

  /** An id or version that is not mistaken for an absent one. */
  predicate IsNameable(v: Option<string>) {
    v != Some("null")
  }

  predicate HasHashes(p: Provenance) {
    IsSha256(p.irHash) && (p.sourceHash.Some? ==> IsSha256(p.sourceHash.value))
  }

  /** What a header must be made of to survive being written and read. */
  predicate IsCleanProvenance(p: Provenance) {
    && HasHashes(p) && IsNameable(p.schemaId) && IsNameable(p.schemaVersion)
    && forall f: FieldName :: ValueOf(p, f).Some? ==> IsClean(ValueOf(p, f).value)
  }

  lemma LabelsAreNames(f: FieldName)
    ensures IsName(Label(f)) && |Label(f)| < LABEL_WIDTH - 1
  {
  }

  lemma LabelsDiffer(f: FieldName, g: FieldName)
    ensures Label(f) == Label(g) ==> f == g
  {
    assert |Label(f)| == |Label(g)| ==> f == g;
  }

  lemma OpeningIsProper()
    ensures IsProper(NoteLine(" * " + OPENING))
  {
    assert OPENING[0] == '@' && "" + OPENING == OPENING;
    NoteIsProper("", OPENING);
  }

  lemma AnonymousIsProper()
    ensures IsProper(NoteLine(" * " + ANONYMOUS))
  {
    assert ANONYMOUS[0] == '/' && "" + ANONYMOUS == ANONYMOUS;
    NoteIsProper("", ANONYMOUS);
  }

  lemma TailIsProper()
    ensures IsProper(NoteLine(" *")) && IsProper(NoteLine(" * " + ("DO" + CLOSING_TAIL)))
  {
    var space := CLOSING_TAIL[0];
    assert space == ' ';
    assert !IsNameChar(space);
    NoteIsProper("DO", CLOSING_TAIL);
    BareStar();
    assert IsOneLine(" *");
  }

  lemma FieldIsProper(f: FieldName, value: string)
    requires IsClean(value)
    ensures IsProper(AlignedLine(Label(f), value))
  {
    LabelsAreNames(f);
  }

  /** The field lines, each for one present field, in the order of the header. */
  function FieldOrder(p: Provenance): seq<FieldName> {
    [SchemaId, SchemaVersion, IrHash] + (if p.sourceHash.Some? then [SourceHash] else []) + [Generator, GeneratorVersion]
  }

  lemma FieldLinesFollow(p: Provenance)
    ensures |FieldLines(p)| == |FieldOrder(p)|
    ensures forall i | 0 <= i < |FieldOrder(p)| ::
      ValueOf(p, FieldOrder(p)[i]).Some? && FieldLines(p)[i] == AlignedLine(Label(FieldOrder(p)[i]), ValueOf(p, FieldOrder(p)[i]).value)
  {
  }

  function Position(p: Provenance, f: FieldName): nat {
    match f
    case SchemaId => 0
    case SchemaVersion => 1
    case IrHash => 2
    case SourceHash => 3
    case Generator => if p.sourceHash.Some? then 4 else 3
    case GeneratorVersion => if p.sourceHash.Some? then 5 else 4
  }

  lemma OrderIsComplete(p: Provenance, f: FieldName, i: nat)
    requires i < |FieldOrder(p)|
    ensures ValueOf(p, f).Some? ==> Position(p, f) < |FieldOrder(p)| && FieldOrder(p)[Position(p, f)] == f
    ensures FieldOrder(p)[i] == f ==> ValueOf(p, f).Some? && i == Position(p, f)
  {
  }

  lemma HeaderLinesAreProper(p: Provenance)
    requires IsCleanProvenance(p)
    ensures forall l | l in HeaderLines(p) :: IsProper(l)
  {
    OpeningIsProper();
    AnonymousIsProper();
    TailIsProper();
    FieldLinesFollow(p);
    forall l | l in FieldLines(p) ensures IsProper(l) {
      var i :| 0 <= i < |FieldLines(p)| && FieldLines(p)[i] == l;
      FieldIsProper(FieldOrder(p)[i], ValueOf(p, FieldOrder(p)[i]).value);
    }
  }

  /** Notes record nothing. */
  lemma NotesRecordNothing(p: Provenance)
    ensures Recorded(HeaderLines(p)) == Recorded(HeadLines(p) + FieldLines(p))
  {
    var lines := HeadLines(p) + FieldLines(p);
    var more := lines + [TailLines()[0]];
    assert HeaderLines(p) == more + [TailLines()[1]];
    assert Front(HeaderLines(p)) == more && Front(more) == lines;
  }

  /** Past the notes, the line of a label is at the label's own place. */
  lemma LineOfLabel(p: Provenance, f: FieldName, j: nat)
    requires var lines := HeadLines(p) + FieldLines(p);
             j < |lines| && lines[j].FieldLine? && lines[j].key == Label(f)
    ensures ValueOf(p, f).Some? && j == |HeadLines(p)| + Position(p, f)
  {
    var i := j - |HeadLines(p)|;
    FieldLinesFollow(p);
    assert (HeadLines(p) + FieldLines(p))[j] == FieldLines(p)[i];
    LabelsDiffer(FieldOrder(p)[i], f);
    OrderIsComplete(p, f, i);
  }

  /** The header records exactly the present fields, each under its label. */
  lemma HeaderRecords(p: Provenance, f: FieldName)
    requires ValueOf(p, f).Some? ==> IsClean(ValueOf(p, f).value)
    ensures Label(f) in Recorded(HeaderLines(p)) <==> ValueOf(p, f).Some?
    ensures ValueOf(p, f).Some? ==> Recorded(HeaderLines(p))[Label(f)] == ValueOf(p, f).value
  {
    var lines := HeadLines(p) + FieldLines(p);
    NotesRecordNothing(p);
    if ValueOf(p, f).Some? {
      PresentFieldIsRecorded(p, f);
    }
    if Label(f) in Recorded(lines) {
      RecordedKeys(lines, Label(f));
      var i :| 0 <= i < |lines| && lines[i].FieldLine? && lines[i].key == Label(f);
      LineOfLabel(p, f, i);
    }
  }

  lemma PresentFieldIsRecorded(p: Provenance, f: FieldName)
    requires ValueOf(p, f).Some? && IsClean(ValueOf(p, f).value)
    ensures var recorded := Recorded(HeadLines(p) + FieldLines(p));
            Label(f) in recorded && recorded[Label(f)] == ValueOf(p, f).value
  {
    var lines, at := HeadLines(p) + FieldLines(p), |HeadLines(p)| + Position(p, f);
    FieldLinesFollow(p);
    OrderIsComplete(p, f, 0);
    assert lines[at] == FieldLines(p)[Position(p, f)];
    forall j | at < j < |lines| && lines[j].FieldLine? ensures lines[j].key != lines[at].key {
      if lines[j].key == Label(f) {
        LineOfLabel(p, f, j);
      }
    }
    CleanReads(lines[at]);
    RecordedAt(lines, at);
  }

  /** Fields that are a provenance's own assemble to it. */
  lemma OwnFieldsAssemble(known: map<FieldName, string>, p: Provenance)
    requires forall f: FieldName :: f in known <==> ValueOf(p, f).Some?
    requires forall f | f in known :: known[f] == ValueOf(p, f).value
    ensures Assembled(known) == Ok(p) <==> HasHashes(p) && IsNameable(p.schemaId) && IsNameable(p.schemaVersion)
  {
    assert forall f: FieldName :: !f.SourceHash? ==> f in known;
  }

  lemma CleanHeaderReadsBack(p: Provenance, rest: string)
    requires IsCleanProvenance(p)
    ensures ParseProvenance(HeaderOf(HeaderLines(p)) + rest) == Ok(p)
  {
    var lines := HeaderLines(p);
    HeaderLinesAreProper(p);
    HeaderReadsBack(lines, rest);
    HeaderOpens(lines, rest);
    forall f: FieldName
      ensures f in Known(Recorded(lines)) <==> ValueOf(p, f).Some?
      ensures f in Known(Recorded(lines)) ==> Known(Recorded(lines))[f] == ValueOf(p, f).value
    {
      HeaderRecords(p, f);
    }
    OwnFieldsAssemble(Known(Recorded(lines)), p);
  }

  lemma AssembledIsClean(known: map<FieldName, string>)
    requires Assembled(known).Ok? && forall f | f in known :: IsClean(known[f])
    ensures IsCleanProvenance(Assembled(known).value)
  {
    var p := Assembled(known).value;
    NullIsClean();
    forall f: FieldName | ValueOf(p, f).Some? ensures IsClean(ValueOf(p, f).value) {
      assert f in known;
    }
  }

  lemma NullIsClean()
    ensures IsClean("null")
  {
  }

  lemma KnownAreClean(fields: map<string, string>)
    requires AllClean(fields)
    ensures forall f | f in Known(fields) :: IsClean(Known(fields)[f])
  {
  }

  lemma ParsedHeaderIsClean(content: string)
    requires ParseHeader(content).Ok?
    ensures IsCleanProvenance(ParseHeader(content).value)
  {
    var block := BlockOf(content).value;
    ReadValuesAreClean(content);
    CleanBlock(FieldsOf(SplitLines(block)));
  }

  lemma CleanBlock(fields: map<string, string>)
    requires AllClean(fields)
    ensures Assembled(Known(fields)).Ok? ==> IsCleanProvenance(Assembled(Known(fields)).value)
  {
    KnownAreClean(fields);
    if Assembled(Known(fields)).Ok? {
      AssembledIsClean(Known(fields));
    }
  }

  /** A generated header reads back exactly when its fields are clean, no id or version is the text `null`, and the hashes
      are hashes; whatever follows the header. */
  lemma HeaderRoundTripIffClean(p: Provenance, rest: string)
    ensures ParseProvenance(HeaderOf(HeaderLines(p)) + rest) == Ok(p) <==> IsCleanProvenance(p)
  {
    HeaderOpens(HeaderLines(p), rest);
    if IsCleanProvenance(p) {
      CleanHeaderReadsBack(p, rest);
    }
    if ParseProvenance(HeaderOf(HeaderLines(p)) + rest) == Ok(p) {
      ParsedHeaderIsClean(HeaderOf(HeaderLines(p)) + rest);
    }
  }

  // ---- The `x-nekostack` object ----

  function NullOr(v: Option<string>): Tree {
    if v.Some? then JText(v.value) else JNull
  }

  /** `emitProvenance`. */
  function ProvenanceBlock(p: Provenance): seq<Prop> {
    [ Prop(Label(Generator), JText(p.generator)), Prop(Label(GeneratorVersion), JText(p.generatorVersion)),
      Prop(Label(IrHash), JText(p.irHash)) ]
    + (if p.sourceHash.Some? then [Prop(Label(SourceHash), JText(p.sourceHash.value))] else [])
    + [Prop(Label(SchemaId), NullOr(p.schemaId)), Prop(Label(SchemaVersion), NullOr(p.schemaVersion))]
  }

  /** The root object: the schema's own keys, then the provenance. */
  function Root(body: seq<Prop>, p: Provenance): Tree {
    JObject(body + [Prop(PROVENANCE_KEY, JObject(ProvenanceBlock(p)))])
  }

  function JsonArtifact(less: (string, string) -> bool, body: seq<Prop>, p: Provenance): string {
    Text(Canon(less, Root(body, p)), true, 0) + "\n"
  }

  predicate IsBody(body: seq<Prop>) {
    KeysDiffer(body) && forall q | q in body :: q.key != PROVENANCE_KEY && IsPlain(q.value)
  }

  lemma {:induction false} PropOfMember(props: seq<Prop>, q: Prop)
    requires KeysDiffer(props) && q in props
    ensures PropOf(props, q.key) == q.value
  {
    if LastOf(props) != q {
      assert q in Front(props);
      var i :| 0 <= i < |Front(props)| && Front(props)[i] == q;
      assert props[i].key != props[|props| - 1].key;
      PropOfMember(Front(props), q);
    }
  }

  lemma {:induction false} PropOfAbsent(props: seq<Prop>, key: string)
    requires forall q | q in props :: q.key != key
    ensures PropOf(props, key) == JUndefined
  {
    if props != [] {
      assert LastOf(props) in props && forall q | q in Front(props) :: q in props;
      PropOfAbsent(Front(props), key);
    }
  }

  /** Sorting and canonicalizing keep what a key holds. */
  lemma CanonPropOf(less: (string, string) -> bool, props: seq<Prop>, q: Prop)
    requires IsKeyOrder(less) && KeysDiffer(props) && q in props && !q.value.JUndefined?
    ensures PropOf(Sorted(less, CanonProps(less, props)), q.key) == Canon(less, q.value)
  {
    var canon, x := Sorted(less, CanonProps(less, props)), Prop(q.key, Canon(less, q.value));
    CanonPropsKeysDiffer(less, props);
    SortedIsSorted(less, CanonProps(less, props));
    SortedKeysDiffer(less, canon);
    CanonPropsMembers(less, props, x);
    SortedMembers(less, CanonProps(less, props), x);
    PropOfMember(canon, x);
  }

  lemma CanonPropAbsent(less: (string, string) -> bool, props: seq<Prop>, key: string)
    requires forall q | q in props :: q.key != key
    ensures PropOf(Sorted(less, CanonProps(less, props)), key) == JUndefined
  {
    var canon := Sorted(less, CanonProps(less, props));
    forall x | x in canon ensures x.key != key {
      SortedMembers(less, CanonProps(less, props), x);
      CanonPropsMembers(less, props, x);
    }
    PropOfAbsent(canon, key);
  }

  lemma BlockIsPlain(p: Provenance)
    ensures IsPlain(JObject(ProvenanceBlock(p)))
  {
    var block := ProvenanceBlock(p);
    forall i, j | 0 <= i < j < |block| ensures block[i].key != block[j].key {
      assert exists f: FieldName :: block[i].key == Label(f) && block[j].key != Label(f) by {
        BlockKeys(p, i, j);
      }
    }
  }

  function BlockOrder(p: Provenance): seq<FieldName> {
    [Generator, GeneratorVersion, IrHash] + (if p.sourceHash.Some? then [SourceHash] else []) + [SchemaId, SchemaVersion]
  }

  lemma BlockKeys(p: Provenance, i: nat, j: nat)
    requires i < j < |ProvenanceBlock(p)|
    ensures exists f: FieldName :: ProvenanceBlock(p)[i].key == Label(f) && ProvenanceBlock(p)[j].key != Label(f)
  {
    var order := BlockOrder(p);
    assert ProvenanceBlock(p)[i].key == Label(order[i]) && ProvenanceBlock(p)[j].key == Label(order[j]);
    LabelsDiffer(order[i], order[j]);
  }

  /** What the block holds under a label. */
  function HeldUnder(p: Provenance, f: FieldName): Tree {
    match f
    case SchemaId => NullOr(p.schemaId)
    case SchemaVersion => NullOr(p.schemaVersion)
    case _ => if ValueOf(p, f).Some? then JText(ValueOf(p, f).value) else JUndefined
  }

  lemma BlockHolds(less: (string, string) -> bool, p: Provenance, f: FieldName)
    requires IsKeyOrder(less)
    ensures PropOf(Sorted(less, CanonProps(less, ProvenanceBlock(p))), Label(f)) == HeldUnder(p, f)
  {
    var block := ProvenanceBlock(p);
    BlockIsPlain(p);
    if f.SourceHash? && p.sourceHash.None? {
      forall q | q in block ensures q.key != Label(f) {
        var i :| 0 <= i < |block| && block[i] == q;
        assert q.key == Label(BlockOrder(p)[i]);
        LabelsDiffer(BlockOrder(p)[i], f);
      }
      CanonPropAbsent(less, block, Label(f));
    } else {
      BlockHasField(p, f);
      CanonPropOf(less, block, Prop(Label(f), HeldUnder(p, f)));
    }
  }

  lemma BlockHasField(p: Provenance, f: FieldName)
    requires f.SourceHash? ==> p.sourceHash.Some?
    ensures Prop(Label(f), HeldUnder(p, f)) in ProvenanceBlock(p)
  {
    var block, last := ProvenanceBlock(p), |ProvenanceBlock(p)| - 1;
    match f {
      case Generator => assert block[0] == Prop(Label(f), HeldUnder(p, f));
      case GeneratorVersion => assert block[1] == Prop(Label(f), HeldUnder(p, f));
      case IrHash => assert block[2] == Prop(Label(f), HeldUnder(p, f));
      case SourceHash => assert block[3] == Prop(Label(f), HeldUnder(p, f));
      case SchemaId => assert block[last - 1] == Prop(Label(f), HeldUnder(p, f));
      case SchemaVersion => assert block[last] == Prop(Label(f), HeldUnder(p, f));
    }
  }

  /** The fields read from a canonical block are the provenance's own. */
  lemma {:induction false} BlockReads(block: seq<Prop>, p: Provenance, names: seq<FieldName>)
    requires forall f: FieldName :: PropOf(block, Label(f)) == HeldUnder(p, f)
    ensures BlockFields(block, names).Ok?
    ensures forall f :: f in BlockFields(block, names).value <==> f in names && ValueOf(p, f).Some?
    ensures forall f | f in BlockFields(block, names).value :: BlockFields(block, names).value[f] == ValueOf(p, f).value
  {
    if names != [] {
      BlockReads(block, p, Front(names));
      assert names == Front(names) + [LastOf(names)];
      FieldReads(block, p, Front(names), LastOf(names));
      assert forall f :: f in names <==> f in Front(names) || f == LastOf(names);
    }
  }

  lemma FieldReads(block: seq<Prop>, p: Provenance, names: seq<FieldName>, f: FieldName)
    requires PropOf(block, Label(f)) == HeldUnder(p, f) && BlockFields(block, names).Ok?
    ensures var fields := BlockFields(block, names).value;
            BlockFields(block, names + [f]) == Ok(if ValueOf(p, f).Some? then fields[f := ValueOf(p, f).value] else fields)
  {
    assert Front(names + [f]) == names && LastOf(names + [f]) == f;
  }

  lemma AllAreRead(f: FieldName)
    ensures f in JSON_FIELDS
  {
    match f {
      case Generator => assert JSON_FIELDS[0] == f;
      case GeneratorVersion => assert JSON_FIELDS[1] == f;
      case SchemaId => assert JSON_FIELDS[2] == f;
      case SchemaVersion => assert JSON_FIELDS[3] == f;
      case IrHash => assert JSON_FIELDS[4] == f;
      case SourceHash => assert JSON_FIELDS[5] == f;
    }
  }

  lemma BlockAssembles(block: seq<Prop>, p: Provenance)
    requires forall f: FieldName :: PropOf(block, Label(f)) == HeldUnder(p, f)
    ensures BlockFields(block, JSON_FIELDS).Ok?
    ensures Assembled(BlockFields(block, JSON_FIELDS).value) == Ok(p) <==>
            HasHashes(p) && IsNameable(p.schemaId) && IsNameable(p.schemaVersion)
  {
    BlockReads(block, p, JSON_FIELDS);
    forall f: FieldName ensures f in JSON_FIELDS {
      AllAreRead(f);
    }
    OwnFieldsAssemble(BlockFields(block, JSON_FIELDS).value, p);
  }

  /** The document read from a JSON artifact: the trailing newline is whitespace. */
  lemma ArtifactReads(less: (string, string) -> bool, body: seq<Prop>, p: Provenance)
    requires IsKeyOrder(less) && IsBody(body)
    ensures ReadJson(JsonArtifact(less, body, p)) == Some(Canon(less, Root(body, p)))
  {
    var t := Canon(less, Root(body, p));
    RootIsPlain(body, p);
    CanonKeepsMeaning(less, Root(body, p));
    TextLexes(t, true, 0);
    SpacesAreClosed("\n");
    BreakConcat(Text(t, true, 0), Tokens(t), "\n", []);
    assert Tokens(t) + [] == Tokens(t);
    ValueRoundTrip(t, []);
  }

  lemma RootIsPlain(body: seq<Prop>, p: Provenance)
    requires IsBody(body)
    ensures IsPlain(Root(body, p))
  {
    var last := Prop(PROVENANCE_KEY, JObject(ProvenanceBlock(p)));
    BlockIsPlain(p);
    forall i | 0 <= i < |body| ensures body[i].key != last.key {
      assert body[i] in body;
    }
  }

  /** A JSON artifact opens with a brace. */
  lemma ArtifactOpens(less: (string, string) -> bool, body: seq<Prop>, p: Provenance)
    requires IsKeyOrder(less) && IsBody(body)
    ensures !("/**" <= TrimStart(JsonArtifact(less, body, p))) && "{" <= TrimStart(JsonArtifact(less, body, p))
  {
    var content := JsonArtifact(less, body, p);
    assert content[0] == '{';
    assert Span(IsWhitespace, content) == 0 && TrimStart(content) == content;
  }

  /** The JSON carrier needs no clean text: it reads back exactly when no id or version is the text `null`, and the hashes
      are hashes. */
  lemma JsonRoundTripIffNameable(less: (string, string) -> bool, body: seq<Prop>, p: Provenance)
    requires IsKeyOrder(less) && IsBody(body)
    ensures ParseProvenance(JsonArtifact(less, body, p)) == Ok(p) <==>
            HasHashes(p) && IsNameable(p.schemaId) && IsNameable(p.schemaVersion)
  {
    var held := Prop(PROVENANCE_KEY, JObject(ProvenanceBlock(p)));
    var props := body + [held];
    RootIsPlain(body, p);
    assert props[|body|] == held;
    ArtifactReads(less, body, p);
    ArtifactOpens(less, body, p);
    CanonPropOf(less, props, held);
    forall f: FieldName
      ensures PropOf(Sorted(less, CanonProps(less, ProvenanceBlock(p))), Label(f)) == HeldUnder(p, f)
    {
      BlockHolds(less, p, f);
    }
    BlockAssembles(Sorted(less, CanonProps(less, ProvenanceBlock(p))), p);
  }
}
