/** Loading migration files: the three-level index, and why a stub verifies against the registry it came from. */
module MigrationIndex {
  import opened Values
  import opened Registries
  import opened Verify
  import opened Headers
  import opened Stub

  datatype MigrationSource = MigrationSource(sourcePath: string, sourceText: string, transform: Value -> TransformOutcome)

  datatype IndexIssue =
    | Unparsable(sourcePath: string, error: ProvenanceError)
    | DuplicateMigration(schemaId: string, from: string, to: string, firstPath: string, secondPath: string)

  function EntryOf(s: MigrationSource, h: MigrationHeader): MigrationEntry {
    MigrationEntry(h.schemaId, h.fromVersion, h.toVersion,
                   h.fromIrHash, h.toIrHash, h.fromSourceHash, h.toSourceHash, s.sourcePath, s.transform)
  }

  function Parsed(s: MigrationSource): Option<MigrationEntry> {
    match ParseMigrationProvenance(s.sourceText)
    case Err(_) => None
    case Ok(h) => Some(EntryOf(s, h))
  }

  function FindEntry(reg: MigrationRegistry, e: MigrationEntry): Option<MigrationEntry> {
    FindMigration(reg, e.schemaId, e.fromVersion, e.toVersion)
  }

  /** The registry and the issues after loading; the first file of a triple stays. */
  function Indexed(sources: seq<MigrationSource>): (MigrationRegistry, seq<IndexIssue>) {
    if sources == [] then (map[], [])
    else
      var (reg, issues) := Indexed(Front(sources));
      var s := LastOf(sources);
      match ParseMigrationProvenance(s.sourceText)
      case Err(error) => (reg, issues + [Unparsable(s.sourcePath, error)])
      case Ok(h) =>
        var e := EntryOf(s, h);
        match FindEntry(reg, e)
        case Some(x) =>
          (reg, issues + [DuplicateMigration(e.schemaId, e.fromVersion, e.toVersion, x.sourcePath, s.sourcePath)])
        case None => (Insert(reg, e), issues)
  }

  method BuildMigrationRegistry(sources: seq<MigrationSource>) returns (r: Result<MigrationRegistry, seq<IndexIssue>>)
    ensures var (reg, issues) := Indexed(sources); r == if issues == [] then Ok(reg) else Err(issues)
  {
    var out: MigrationRegistry, issues: seq<IndexIssue> := map[], [];
    for i := 0 to |sources|
      invariant (out, issues) == Indexed(sources[..i])
    {
      assert Front(sources[..i + 1]) == sources[..i];
      var s := sources[i];
      var parsed := ParseMigrationProvenanceFromText(s.sourceText);
      if parsed.Err? {
        issues := issues + [Unparsable(s.sourcePath, parsed.error)];
        continue;
      }
      var e := EntryOf(s, parsed.value);
      var byFrom := map[];
      if e.schemaId in out {
        byFrom := out[e.schemaId];
      }
      var byTo := [];
      if e.fromVersion in byFrom {
        byTo := byFrom[e.fromVersion];
      }
      var existing := FindEdge(byTo, e.toVersion);
      if existing.Some? {
        issues := issues
          + [DuplicateMigration(e.schemaId, e.fromVersion, e.toVersion, existing.value.sourcePath, s.sourcePath)];
        continue;
      }
      out := out[e.schemaId := byFrom[e.fromVersion := MapSet(byTo, e.toVersion, e)]];
    }
    assert sources[..|sources|] == sources;
    r := if |issues| > 0 then Err(issues) else Ok(out);
  }

  // ---- What the index holds ----

  lemma {:induction false} MapSetFinds(edges: seq<Edge>, to: string, e: MigrationEntry, x: string)
    ensures FindEdge(MapSet(edges, to, e), x) == if x == to then Some(e) else FindEdge(edges, x)
  {
    if edges != [] && edges[0].to != to {
      MapSetFinds(edges[1..], to, e, x);
    }
  }

  lemma InsertFinds(reg: MigrationRegistry, e: MigrationEntry, id: string, from: string, to: string)
    ensures FindMigration(Insert(reg, e), id, from, to) ==
      if id == e.schemaId && from == e.fromVersion && to == e.toVersion then Some(e) else FindMigration(reg, id, from, to)
  {
    var byFrom := if e.schemaId in reg then reg[e.schemaId] else map[];
    MapSetFinds(if e.fromVersion in byFrom then byFrom[e.fromVersion] else [], e.toVersion, e, to);
  }

  lemma InsertKeysAgree(reg: MigrationRegistry, e: MigrationEntry)
    requires KeysAgree(reg)
    ensures KeysAgree(Insert(reg, e))
  {
    var byFrom := if e.schemaId in reg then reg[e.schemaId] else map[];
    var byTo := if e.fromVersion in byFrom then byFrom[e.fromVersion] else [];
    MapSetKeepsKeys(byTo, e.toVersion, e);
    var bindings := MapSet(byTo, e.toVersion, e);
    forall i | 0 <= i < |bindings|
      ensures bindings[i].entry.schemaId == e.schemaId && bindings[i].entry.fromVersion == e.fromVersion
      ensures bindings[i].entry.toVersion == bindings[i].to
    {
      assert bindings[i] in bindings;
    }
  }

  predicate SameTriple(e: MigrationEntry, x: MigrationEntry) {
    e.schemaId == x.schemaId && e.fromVersion == x.fromVersion && e.toVersion == x.toVersion
  }

  /** What each file declares, in loading order. */
  function Declared(sources: seq<MigrationSource>): seq<Option<MigrationEntry>> {
    seq(|sources|, i requires 0 <= i < |sources| => Parsed(sources[i]))
  }

  lemma DeclaredStep(sources: seq<MigrationSource>)
    requires sources != []
    ensures Front(Declared(sources)) == Declared(Front(sources)) && LastOf(Declared(sources)) == Parsed(LastOf(sources))
  {
  }

  /** The first declaration of a triple. */
  function FirstFor(ds: seq<Option<MigrationEntry>>, e: MigrationEntry): Option<MigrationEntry> {
    if ds == [] then None
    else if FirstFor(Front(ds), e).Some? then FirstFor(Front(ds), e)
    else if LastOf(ds).Some? && SameTriple(LastOf(ds).value, e) then LastOf(ds)
    else None
  }

  /** Every entry sits under the triple of its own header, and a lookup finds the first file that declared it. */
  lemma {:induction false} IndexFindsFirst(sources: seq<MigrationSource>, x: MigrationEntry)
    ensures KeysAgree(Indexed(sources).0)
    ensures FindEntry(Indexed(sources).0, x) == FirstFor(Declared(sources), x)
  {
    if sources != [] {
      var reg := Indexed(Front(sources)).0;
      DeclaredStep(sources);
      IndexFindsFirst(Front(sources), x);
      var last := Parsed(LastOf(sources));
      if last.Some? {
        var e := last.value;
        IndexFindsFirst(Front(sources), e);
        if FindEntry(reg, e).None? {
          InsertFinds(reg, e, x.schemaId, x.fromVersion, x.toVersion);
          InsertKeysAgree(reg, e);
        }
      }
    }
  }

  /** Each file parses, and no two declare the same triple. */
  predicate IsLoadable(ds: seq<Option<MigrationEntry>>) {
    && (forall i | 0 <= i < |ds| :: ds[i].Some?)
    && forall i, j | 0 <= i < j < |ds| :: !SameTriple(ds[i].value, ds[j].value)
  }

  lemma {:induction false} FirstForIsSome(ds: seq<Option<MigrationEntry>>, e: MigrationEntry)
    ensures FirstFor(ds, e).Some? <==> exists d | d in ds :: d.Some? && SameTriple(d.value, e)
  {
    if ds != [] {
      FirstForIsSome(Front(ds), e);
      assert ds == Front(ds) + [LastOf(ds)];
    }
  }

  lemma LoadableStep(ds: seq<Option<MigrationEntry>>)
    requires ds != []
    ensures IsLoadable(ds) <==>
            IsLoadable(Front(ds)) && LastOf(ds).Some? && FirstFor(Front(ds), LastOf(ds).value).None?
  {
    var init, n := Front(ds), |ds| - 1;
    if LastOf(ds).Some? {
      FirstForIsSome(init, LastOf(ds).value);
    }
    if IsLoadable(ds) {
      forall d | d in init ensures d.Some? && !SameTriple(d.value, LastOf(ds).value) {
        var i :| 0 <= i < |init| && init[i] == d;
        assert !SameTriple(ds[i].value, ds[n].value);
      }
    }
    if IsLoadable(init) && LastOf(ds).Some? && FirstFor(init, LastOf(ds).value).None? {
      forall i | 0 <= i < n ensures !SameTriple(ds[i].value, ds[n].value) {
        assert init[i] in init && init[i] == ds[i];
      }
      forall i, j | 0 <= i < j < n ensures !SameTriple(ds[i].value, ds[j].value) {
        assert !SameTriple(init[i].value, init[j].value);
      }
    }
  }

  /** Loading reports no issue exactly when every file parses and the triples are distinct. */
  lemma {:induction false} NoIssuesIffLoadable(sources: seq<MigrationSource>)
    ensures Indexed(sources).1 == [] <==> IsLoadable(Declared(sources))
  {
    if sources != [] {
      DeclaredStep(sources);
      NoIssuesIffLoadable(Front(sources));
      LoadableStep(Declared(sources));
      var last := Parsed(LastOf(sources));
      if last.Some? {
        IndexFindsFirst(Front(sources), last.value);
      }
    }
  }

  // ---- Stub, load, verify ----

  lemma OneSourceIndex(s: MigrationSource, h: MigrationHeader)
    requires ParseMigrationProvenance(s.sourceText) == Ok(h)
    ensures Indexed([s]) == (Insert(map[], EntryOf(s, h)), [])
  {
    assert Front([s]) == [] && LastOf([s]) == s;
  }

  /** The index of one file holds one entry, under `(id, from, to)`, and it is bound. */
  ghost predicate HoldsOneBound(reg: MigrationRegistry, schemas: SchemaRegistry, id: string, from: string, to: string) {
    && FindMigration(reg, id, from, to).Some?
    && forall e | Stored(reg, e) :: e == FindMigration(reg, id, from, to).value && Classify(e, schemas) == Bound
  }

  lemma OneBoundEntry(schemas: SchemaRegistry, e: MigrationEntry)
    requires Classify(e, schemas) == Bound
    ensures HoldsOneBound(Insert(map[], e), schemas, e.schemaId, e.fromVersion, e.toVersion)
  {
    InsertFinds(map[], e, e.schemaId, e.fromVersion, e.toVersion);
    OnlyInserted(e);
  }

  /** `h` records the hashes that its endpoints have now. */
  predicate IsCurrent(schemas: SchemaRegistry, h: MigrationHeader) {
    var f, t := FindSchema(schemas, h.schemaId, h.fromVersion), FindSchema(schemas, h.schemaId, h.toVersion);
    && f.Some? && t.Some?
    && h.fromIrHash == f.value.irHash && h.toIrHash == t.value.irHash
    && h.fromSourceHash == f.value.sourceHash && h.toSourceHash == t.value.sourceHash
  }

  /** No file but number `i` declares the triple of `e`. */
  predicate IsOnlyDeclaration(ds: seq<Option<MigrationEntry>>, i: nat, e: MigrationEntry) {
    forall j | 0 <= j < |ds| && j != i :: ds[j].Some? ==> !SameTriple(ds[j].value, e)
  }

  lemma {:induction false} OnlyDeclarationIsFirst(ds: seq<Option<MigrationEntry>>, i: nat, e: MigrationEntry)
    requires i < |ds| && ds[i] == Some(e) && IsOnlyDeclaration(ds, i, e)
    ensures FirstFor(ds, e) == Some(e)
    decreases |ds|
  {
    if i < |ds| - 1 {
      OnlyDeclarationIsFirst(Front(ds), i, e);
    } else {
      FirstForIsSome(Front(ds), e);
    }
  }

  /** Among any files, one whose header is current, and whose triple no other file declares, loads under its triple and is
      bound. */
  lemma CurrentHeaderIsBound(schemas: SchemaRegistry, sources: seq<MigrationSource>, i: nat, h: MigrationHeader)
    requires i < |sources| && ParseMigrationProvenance(sources[i].sourceText) == Ok(h) && IsCurrent(schemas, h)
    requires IsOnlyDeclaration(Declared(sources), i, EntryOf(sources[i], h))
    ensures FindMigration(Indexed(sources).0, h.schemaId, h.fromVersion, h.toVersion) == Some(EntryOf(sources[i], h))
    ensures Classify(EntryOf(sources[i], h), schemas) == Bound
  {
    OnlyDeclarationIsFound(sources, i, EntryOf(sources[i], h));
  }

  lemma OnlyDeclarationIsFound(sources: seq<MigrationSource>, i: nat, e: MigrationEntry)
    requires i < |sources| && Parsed(sources[i]) == Some(e) && IsOnlyDeclaration(Declared(sources), i, e)
    ensures FindEntry(Indexed(sources).0, e) == Some(e)
  {
    DeclaredFirst(sources, i, e);
    FirstIsFound(sources, e);
  }

  lemma DeclaredFirst(sources: seq<MigrationSource>, i: nat, e: MigrationEntry)
    requires i < |sources| && Parsed(sources[i]) == Some(e) && IsOnlyDeclaration(Declared(sources), i, e)
    ensures FirstFor(Declared(sources), e) == Some(e)
  {
    OnlyDeclarationIsFirst(Declared(sources), i, e);
  }

  lemma FirstIsFound(sources: seq<MigrationSource>, e: MigrationEntry)
    requires FirstFor(Declared(sources), e) == Some(e)
    ensures FindEntry(Indexed(sources).0, e) == Some(e)
  {
    IndexFindsFirst(sources, e);
  }

  /** Alone, it loads without an issue, and the index holds nothing else. */
  lemma OneFileIsBound(schemas: SchemaRegistry, s: MigrationSource, h: MigrationHeader)
    requires IsCurrent(schemas, h) && ParseMigrationProvenance(s.sourceText) == Ok(h)
    ensures Indexed([s]).1 == [] && HoldsOneBound(Indexed([s]).0, schemas, h.schemaId, h.fromVersion, h.toVersion)
  {
    OneSourceIndex(s, h);
    OneBoundEntry(schemas, EntryOf(s, h));
  }

  /** The header of a stub that was made. */
  function MadeHeader(schemas: SchemaRegistry, id: string, from: string, to: string): MigrationHeader
    requires StubMigration(schemas, id, from, to).Ok?
  {
    StubHeader(id, from, to, FindSchema(schemas, id, from).value, FindSchema(schemas, id, to).value)
  }

  lemma StubIsCurrent(schemas: SchemaRegistry, id: string, from: string, to: string)
    requires StubMigration(schemas, id, from, to).Ok? && IsCleanHeader(MadeHeader(schemas, id, from, to))
    ensures var h := MadeHeader(schemas, id, from, to);
            ParseMigrationProvenance(StubMigration(schemas, id, from, to).value) == Ok(h) && IsCurrent(schemas, h)
  {
    CleanStubReadsBack(MadeHeader(schemas, id, from, to));
  }

  /** A stub of registered versions parses, loads under its triple, and verifies as bound against the registry it was made
      from, for every id and version that is clean, and hashes that are hashes: among any files that do not declare its
      triple. */
  lemma StubIsBound(schemas: SchemaRegistry, id: string, from: string, to: string, sources: seq<MigrationSource>, i: nat)
    requires i < |sources| && StubMigration(schemas, id, from, to) == Ok(sources[i].sourceText)
    requires IsCleanHeader(MadeHeader(schemas, id, from, to))
    requires IsOnlyDeclaration(Declared(sources), i, EntryOf(sources[i], MadeHeader(schemas, id, from, to)))
    ensures var e := EntryOf(sources[i], MadeHeader(schemas, id, from, to));
            FindMigration(Indexed(sources).0, id, from, to) == Some(e) && Classify(e, schemas) == Bound
  {
    StubIsCurrent(schemas, id, from, to);
    CurrentHeaderIsBound(schemas, sources, i, MadeHeader(schemas, id, from, to));
  }

  lemma OnlyInserted(e: MigrationEntry)
    ensures forall x | Stored(Insert(map[], e), x) :: x == e
  {
    forall x | Stored(Insert(map[], e), x) ensures x == e {
      InsertFresh(map[], e, x);
    }
  }
}
