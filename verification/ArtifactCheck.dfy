/** Registering schemas, generating their artifacts, and checking committed artifacts for freshness. */
module ArtifactCheck {
  import opened Values
  import opened Schema
  import opened Json
  import opened Canonical
  import opened KeyOrder
  import opened Registries
  import opened Headers
  import opened HeaderText
  import opened Artifacts
  import opened ArtifactReading

  /** One exported schema, and what the four generators put behind or around its provenance. */
  datatype SchemaSource = SchemaSource(
    id: Option<string>, version: Option<string>, irHash: string, node: Node,
    typeText: string, zodText: string, jsonBody: seq<Prop>, openApiBody: seq<Prop>)

  datatype SourceEntry = SourceEntry(sourcePath: string, sourceHash: string, schemas: seq<SchemaSource>)

  // ---- The named schemas, in loading order ----

  datatype Named = Named(id: string, version: Option<string>, entry: SchemaEntry, schema: SchemaSource)

  /** An unversioned schema is registered under the empty version. */
  function VersionKey(v: Option<string>): string {
    if v.Some? then v.value else ""
  }

  function NamedOf(e: SourceEntry, schemas: seq<SchemaSource>): seq<Named> {
    if schemas == [] then []
    else
      var s := LastOf(schemas);
      NamedOf(e, Front(schemas)) +
      if s.id.None? then []
      else [Named(s.id.value, s.version, SchemaEntry(s.irHash, e.sourceHash, e.sourcePath, s.node), s)]
  }

  function AllNamed(entries: seq<SourceEntry>): seq<Named> {
    if entries == [] then []
    else AllNamed(Front(entries)) + NamedOf(LastOf(entries), LastOf(entries).schemas)
  }

  // ---- The registry ----

  datatype Duplicate = Duplicate(id: string, version: Option<string>, firstPath: string, secondPath: string)

  function Registered(reg: SchemaRegistry, n: Named): SchemaRegistry {
    reg[n.id := (if n.id in reg then reg[n.id] else map[])[VersionKey(n.version) := n.entry]]
  }

  type Loaded = (SchemaRegistry, seq<Duplicate>)

  /** The first schema of a key stays. */
  function Load(at: Loaded, n: Named): Loaded {
    match FindSchema(at.0, n.id, VersionKey(n.version))
    case Some(x) => (at.0, at.1 + [Duplicate(n.id, n.version, x.sourcePath, n.entry.sourcePath)])
    case None => (Registered(at.0, n), at.1)
  }

  /** The registry and the duplicates after loading. */
  function Indexed(ns: seq<Named>): Loaded {
    if ns == [] then (map[], []) else Load(Indexed(Front(ns)), LastOf(ns))
  }

  method BuildRegistry(entries: seq<SourceEntry>) returns (r: Result<SchemaRegistry, seq<Duplicate>>)
    ensures var (reg, dups) := Indexed(AllNamed(entries)); r == if dups == [] then Ok(reg) else Err(dups)
  {
    var at: Loaded := (map[], []);
    for i := 0 to |entries|
      invariant at == Indexed(AllNamed(entries[..i]))
    {
      at := LoadEntry(at, entries[i], AllNamed(entries[..i]));
      assert Front(entries[..i + 1]) == entries[..i] && LastOf(entries[..i + 1]) == entries[i];
    }
    assert entries[..|entries|] == entries;
    r := if |at.1| > 0 then Err(at.1) else Ok(at.0);
  }

  /** The inner loop: the schemas of one source file; anonymous ones are passed over. */
  method LoadEntry(before: Loaded, e: SourceEntry, ghost ns: seq<Named>) returns (at: Loaded)
    requires before == Indexed(ns)
    ensures at == Indexed(ns + NamedOf(e, e.schemas))
  {
    at := before;
    assert ns + [] == ns;
    for j := 0 to |e.schemas|
      invariant at == Indexed(ns + NamedOf(e, e.schemas[..j]))
    {
      var s := e.schemas[j];
      NextSchema(e, j, ns);
      if s.id.None? {
        continue;
      }
      at := LoadOne(at, Named(s.id.value, s.version, SchemaEntry(s.irHash, e.sourceHash, e.sourcePath, s.node), s));
    }
    assert e.schemas[..|e.schemas|] == e.schemas;
  }

  /** One more schema of a file is one more named schema, if it has an id. */
  lemma NextSchema(e: SourceEntry, j: nat, ns: seq<Named>)
    requires j < |e.schemas|
    ensures var s, before := e.schemas[j], ns + NamedOf(e, e.schemas[..j]);
            Indexed(ns + NamedOf(e, e.schemas[..j + 1])) ==
              if s.id.None? then Indexed(before)
              else Load(Indexed(before),
                        Named(s.id.value, s.version, SchemaEntry(s.irHash, e.sourceHash, e.sourcePath, s.node), s))
  {
    var s, so := e.schemas[j], NamedOf(e, e.schemas[..j]);
    assert Front(e.schemas[..j + 1]) == e.schemas[..j] && LastOf(e.schemas[..j + 1]) == s;
    if s.id.None? {
      assert so + [] == so;
    } else {
      var n := Named(s.id.value, s.version, SchemaEntry(s.irHash, e.sourceHash, e.sourcePath, s.node), s);
      assert ns + (so + [n]) == ns + so + [n];
      IndexedStep(ns + so, n);
    }
  }

  method LoadOne(before: Loaded, n: Named) returns (at: Loaded)
    ensures at == Load(before, n)
  {
    var (out, dups) := before;
    var versionKey := VersionKey(n.version);
    var inner := map[];
    if n.id in out {
      inner := out[n.id];
    }
    if versionKey in inner {
      dups := dups + [Duplicate(n.id, n.version, inner[versionKey].sourcePath, n.entry.sourcePath)];
      return (out, dups);
    }
    out := out[n.id := inner[versionKey := n.entry]];
    at := (out, dups);
  }

  lemma IndexedStep(ns: seq<Named>, n: Named)
    ensures Indexed(ns + [n]) == Load(Indexed(ns), n)
  {
    assert Front(ns + [n]) == ns && LastOf(ns + [n]) == n;
  }

  predicate SameKey(a: Named, b: Named) {
    a.id == b.id && VersionKey(a.version) == VersionKey(b.version)
  }

  lemma LoadFinds(at: Loaded, n: Named, x: Named)
    ensures var before := FindSchema(at.0, x.id, VersionKey(x.version));
            FindSchema(Load(at, n).0, x.id, VersionKey(x.version)) ==
              if before.None? && SameKey(n, x) then Some(n.entry) else before
  {
  }

  lemma {:induction false} IndexedKeys(ns: seq<Named>, n: Named)
    ensures FindSchema(Indexed(ns).0, n.id, VersionKey(n.version)).Some? <==> exists x | x in ns :: SameKey(x, n)
  {
    if ns != [] {
      IndexedKeys(Front(ns), n);
      LoadFinds(Indexed(Front(ns)), LastOf(ns), n);
      assert forall x :: x in ns <==> x in Front(ns) || x == LastOf(ns) by {
        assert ns == Front(ns) + [LastOf(ns)];
      }
    }
  }

  /** Without duplicates, every named schema is found under its own id and version. */
  lemma {:induction false} NamedAreFound(ns: seq<Named>, n: Named)
    requires Indexed(ns).1 == [] && n in ns
    ensures FindSchema(Indexed(ns).0, n.id, VersionKey(n.version)) == Some(n.entry)
  {
    var init, last := Front(ns), LastOf(ns);
    assert ns == init + [last];
    LoadFinds(Indexed(init), last, n);
    if n in init {
      NamedAreFound(init, n);
    }
  }

  ghost predicate KeysAreDistinct(ns: seq<Named>) {
    forall i, j | 0 <= i < j < |ns| :: !SameKey(ns[i], ns[j])
  }

  lemma KeysAreDistinctStep(ns: seq<Named>)
    requires ns != []
    ensures KeysAreDistinct(ns) <==> KeysAreDistinct(Front(ns)) && forall x | x in Front(ns) :: !SameKey(x, LastOf(ns))
  {
    var init := Front(ns);
    assert forall i | 0 <= i < |init| :: init[i] == ns[i] && init[i] in init;
  }

  /** Loading reports a duplicate exactly when two named schemas share id and version. */
  lemma {:induction false} NoDuplicatesIffKeysDistinct(ns: seq<Named>)
    ensures Indexed(ns).1 == [] <==> KeysAreDistinct(ns)
  {
    if ns != [] {
      NoDuplicatesIffKeysDistinct(Front(ns));
      IndexedKeys(Front(ns), LastOf(ns));
      KeysAreDistinctStep(ns);
    }
  }

  // ---- Generating ----

  datatype GeneratorKind = TypeScript | Zod | JsonSchema | OpenApi

  function GeneratorName(k: GeneratorKind): string {
    match k
    case TypeScript => "typescript"
    case Zod => "zod"
    case JsonSchema => "jsonSchema"
    case OpenApi => "openApi"
  }

  const GENERATOR_VERSION := "@nekostack/schema@1.0.4"

  function ProvenanceOf(k: GeneratorKind, n: Named): Provenance {
    Provenance(GeneratorName(k), GENERATOR_VERSION, Some(n.id), n.version, n.entry.irHash, Some(n.entry.sourceHash))
  }

  /** `renderArtifact`: a header and code, or a document with its provenance object. */
  function RenderArtifact(less: (string, string) -> bool, k: GeneratorKind, n: Named): string {
    var p := ProvenanceOf(k, n);
    match k
    case TypeScript => HeaderOf(HeaderLines(p)) + n.schema.typeText
    case Zod => HeaderOf(HeaderLines(p)) + n.schema.zodText
    case JsonSchema => JsonArtifact(less, n.schema.jsonBody, p)
    case OpenApi => JsonArtifact(less, n.schema.openApiBody, p)
  }

  const GENERATOR_KINDS := [TypeScript, Zod, JsonSchema, OpenApi]

  function Rendered(less: (string, string) -> bool, n: Named, kinds: seq<GeneratorKind>): seq<string> {
    seq(|kinds|, i requires 0 <= i < |kinds| => RenderArtifact(less, kinds[i], n))
  }

  function AllRendered(less: (string, string) -> bool, ns: seq<Named>): seq<string> {
    if ns == [] then [] else AllRendered(less, Front(ns)) + Rendered(less, LastOf(ns), GENERATOR_KINDS)
  }

  lemma {:induction false} AllRenderedMembers(less: (string, string) -> bool, ns: seq<Named>, content: string)
    ensures content in AllRendered(less, ns) <==> exists n, k | n in ns :: content == RenderArtifact(less, k, n)
  {
    if ns != [] {
      var n := LastOf(ns);
      AllRenderedMembers(less, Front(ns), content);
      RenderedMembers(less, n, content);
      assert ns == Front(ns) + [n];
    }
  }

  lemma RenderedMembers(less: (string, string) -> bool, n: Named, content: string)
    ensures content in Rendered(less, n, GENERATOR_KINDS) <==> exists k :: content == RenderArtifact(less, k, n)
  {
    var all := Rendered(less, n, GENERATOR_KINDS);
    if k :| content == RenderArtifact(less, k, n) {
      assert all[0] == RenderArtifact(less, TypeScript, n) && all[1] == RenderArtifact(less, Zod, n);
      assert all[2] == RenderArtifact(less, JsonSchema, n) && all[3] == RenderArtifact(less, OpenApi, n);
      assert content in all by {
        match k {
          case TypeScript => assert all[0] in all;
          case Zod => assert all[1] in all;
          case JsonSchema => assert all[2] in all;
          case OpenApi => assert all[3] in all;
        }
      }
    }
  }

  /** The nested loops: every named schema of every file, in each kind. */
  method Generate(less: (string, string) -> bool, entries: seq<SourceEntry>) returns (contents: seq<string>)
    ensures contents == AllRendered(less, AllNamed(entries))
  {
    contents := [];
    for i := 0 to |entries|
      invariant contents == AllRendered(less, AllNamed(entries[..i]))
    {
      var more := GenerateEntry(less, entries[i]);
      AllRenderedConcat(less, AllNamed(entries[..i]), NamedOf(entries[i], entries[i].schemas));
      assert Front(entries[..i + 1]) == entries[..i] && LastOf(entries[..i + 1]) == entries[i];
      contents := contents + more;
    }
    assert entries[..|entries|] == entries;
  }

  method GenerateEntry(less: (string, string) -> bool, e: SourceEntry) returns (contents: seq<string>)
    ensures contents == AllRendered(less, NamedOf(e, e.schemas))
  {
    contents := [];
    for j := 0 to |e.schemas|
      invariant contents == AllRendered(less, NamedOf(e, e.schemas[..j]))
    {
      var s := e.schemas[j];
      ghost var so := NamedOf(e, e.schemas[..j]);
      assert Front(e.schemas[..j + 1]) == e.schemas[..j] && LastOf(e.schemas[..j + 1]) == s;
      if s.id.None? {
        assert so + [] == so;
        continue;
      }
      var n := Named(s.id.value, s.version, SchemaEntry(s.irHash, e.sourceHash, e.sourcePath, s.node), s);
      assert Front(so + [n]) == so && LastOf(so + [n]) == n;
      var rendered := RenderKinds(less, n);
      contents := contents + rendered;
    }
    assert e.schemas[..|e.schemas|] == e.schemas;
  }

  /** The innermost loop: one artifact for each generator. */
  method RenderKinds(less: (string, string) -> bool, n: Named) returns (contents: seq<string>)
    ensures contents == Rendered(less, n, GENERATOR_KINDS)
  {
    contents := [];
    for k := 0 to |GENERATOR_KINDS|
      invariant contents == Rendered(less, n, GENERATOR_KINDS)[..k]
    {
      contents := contents + [RenderArtifact(less, GENERATOR_KINDS[k], n)];
    }
  }

  lemma {:induction false} AllRenderedConcat(less: (string, string) -> bool, a: seq<Named>, b: seq<Named>)
    ensures AllRendered(less, a + b) == AllRendered(less, a) + AllRendered(less, b)
    decreases |b|
  {
    if b == [] {
      assert a + b == a;
    } else {
      assert Front(a + b) == a + Front(b) && LastOf(a + b) == LastOf(b);
      AllRenderedConcat(less, a, Front(b));
    }
  }

  // ---- Checking ----

  datatype Freshness = Clean | CosmeticDrift | Stale | IntegrityError

  datatype CheckIssue =
    | BadProvenance(error: ProvenanceError)
    | AnonymousArtifact
    | SchemaNotFound(id: string)
    | VersionNotFound(id: string, version: Option<string>)

  /** The two-hash matrix; an artifact without a source hash is judged by its IR hash. */
  function VerdictFor(p: Provenance, e: SchemaEntry): Freshness {
    var irMatch := p.irHash == e.irHash;
    if p.sourceHash.None? then if irMatch then Clean else Stale
    else
      var sourceMatch := p.sourceHash.value == e.sourceHash;
      if irMatch && sourceMatch then Clean
      else if irMatch then CosmeticDrift
      else if !sourceMatch then Stale
      else IntegrityError
  }

  function Classified(reg: SchemaRegistry, content: string): Result<Freshness, CheckIssue> {
    match ParseProvenance(content)
    case Err(e) => Err(BadProvenance(e))
    case Ok(p) =>
      match p.schemaId
      case None => Err(AnonymousArtifact)
      case Some(id) =>
        match FindSchema(reg, id, VersionKey(p.schemaVersion))
        case Some(e) => Ok(VerdictFor(p, e))
        case None => Err(if id in reg then VersionNotFound(id, p.schemaVersion) else SchemaNotFound(id))
  }

  function Judgements(reg: SchemaRegistry, contents: seq<string>): seq<Result<Freshness, CheckIssue>> {
    seq(|contents|, i requires 0 <= i < |contents| => Classified(reg, contents[i]))
  }

  /** The verdicts, in order. */
  function Verdicts(js: seq<Result<Freshness, CheckIssue>>): seq<Freshness> {
    if js == [] then [] else Verdicts(Front(js)) + if LastOf(js).Ok? then [LastOf(js).value] else []
  }

  /** The issues of the artifacts that cannot be judged, in order. */
  function Issues(js: seq<Result<Freshness, CheckIssue>>): seq<CheckIssue> {
    if js == [] then [] else Issues(Front(js)) + if LastOf(js).Err? then [LastOf(js).error] else []
  }

  method CheckHandler(reg: SchemaRegistry, contents: seq<string>) returns (r: Result<seq<Freshness>, seq<CheckIssue>>)
    ensures var js := Judgements(reg, contents); r == if Issues(js) == [] then Ok(Verdicts(js)) else Err(Issues(js))
  {
    var verdicts, issues := [], [];
    ghost var js := Judgements(reg, contents);
    for i := 0 to |contents|
      invariant verdicts == Verdicts(js[..i]) && issues == Issues(js[..i])
    {
      assert Front(js[..i + 1]) == js[..i] && LastOf(js[..i + 1]) == js[i];
      var c := Classified(reg, contents[i]);
      if c.Ok? {
        verdicts := verdicts + [c.value];
      } else {
        issues := issues + [c.error];
      }
    }
    assert js[..|contents|] == js;
    r := if |issues| > 0 then Err(issues) else Ok(verdicts);
  }

  lemma {:induction false} NoIssuesIffJudged(js: seq<Result<Freshness, CheckIssue>>)
    ensures Issues(js) == [] <==> forall j | j in js :: j.Ok?
  {
    if js != [] {
      NoIssuesIffJudged(Front(js));
      assert js == Front(js) + [LastOf(js)];
      assert LastOf(js) in js;
    }
  }

  /** A check without issues has a verdict on each artifact, in order. */
  lemma {:induction false} VerdictsInOrder(js: seq<Result<Freshness, CheckIssue>>)
    requires Issues(js) == []
    ensures |Verdicts(js)| == |js|
    ensures forall i | 0 <= i < |js| :: js[i] == Ok(Verdicts(js)[i])
  {
    if js != [] {
      VerdictsInOrder(Front(js));
    }
  }

  // ---- Generate, then check ----

  /** Ids, versions, hashes and bodies that both carriers can bear. */
  predicate IsCarried(n: Named) {
    && IsClean(n.id) && n.id != "null"
    && (n.version.Some? ==> IsClean(n.version.value) && n.version.value != "null")
    && IsSha256(n.entry.irHash) && IsSha256(n.entry.sourceHash)
    && IsBody(n.schema.jsonBody) && IsBody(n.schema.openApiBody)
  }

  lemma Sha256IsClean(s: string)
    requires IsSha256(s)
    ensures IsClean(s)
  {
    assert forall i | 0 <= i < 7 :: s[i] == s[..7][i];
  }

  lemma CarriedIsClean(k: GeneratorKind, n: Named)
    requires IsCarried(n)
    ensures IsCleanProvenance(ProvenanceOf(k, n))
  {
    var p := ProvenanceOf(k, n);
    NullIsClean();
    Sha256IsClean(n.entry.irHash);
    Sha256IsClean(n.entry.sourceHash);
    GeneratorNamesAreClean(k);
    GeneratorVersionIsClean();
    forall f: FieldName | ValueOf(p, f).Some? ensures IsClean(ValueOf(p, f).value) {
      match f {
        case Generator =>
        case GeneratorVersion =>
        case SchemaId =>
        case SchemaVersion =>
        case IrHash =>
        case SourceHash =>
      }
    }
  }

  lemma GeneratorNamesAreClean(k: GeneratorKind)
    ensures IsClean(GeneratorName(k))
  {
  }

  lemma GeneratorVersionIsClean()
    ensures IsClean(GENERATOR_VERSION)
  {
  }

  /** Every artifact of a carried schema reads back with the provenance it was given. */
  lemma ArtifactReadsBack(less: (string, string) -> bool, k: GeneratorKind, n: Named)
    requires IsKeyOrder(less) && IsCarried(n)
    ensures ParseProvenance(RenderArtifact(less, k, n)) == Ok(ProvenanceOf(k, n))
  {
    var p := ProvenanceOf(k, n);
    CarriedIsClean(k, n);
    match k {
      case TypeScript => HeaderRoundTripIffClean(p, n.schema.typeText);
      case Zod => HeaderRoundTripIffClean(p, n.schema.zodText);
      case JsonSchema => JsonRoundTripIffNameable(less, n.schema.jsonBody, p);
      case OpenApi => JsonRoundTripIffNameable(less, n.schema.openApiBody, p);
    }
  }

  /** A committed artifact, checked later against whatever its key is registered with by then: the verdict says which of
      the two hashes moved. */
  lemma VerdictTellsWhatMoved(less: (string, string) -> bool, k: GeneratorKind, n: Named, reg: SchemaRegistry, now: SchemaEntry)
    requires IsKeyOrder(less) && IsCarried(n) && FindSchema(reg, n.id, VersionKey(n.version)) == Some(now)
    ensures Classified(reg, RenderArtifact(less, k, n)).Ok?
    ensures var v := Classified(reg, RenderArtifact(less, k, n)).value;
            && (v.Clean? <==> n.entry.irHash == now.irHash && n.entry.sourceHash == now.sourceHash)
            && (v.CosmeticDrift? <==> n.entry.irHash == now.irHash && n.entry.sourceHash != now.sourceHash)
            && (v.Stale? <==> n.entry.irHash != now.irHash && n.entry.sourceHash != now.sourceHash)
            && (v.IntegrityError? <==> n.entry.irHash != now.irHash && n.entry.sourceHash == now.sourceHash)
  {
    ArtifactReadsBack(less, k, n);
  }

  /** Generated from the entries that were registered, an artifact is clean. */
  lemma GeneratedIsClean(less: (string, string) -> bool, ns: seq<Named>, content: string)
    requires IsKeyOrder(less) && Indexed(ns).1 == [] && forall n | n in ns :: IsCarried(n)
    requires content in AllRendered(less, ns)
    ensures Classified(Indexed(ns).0, content) == Ok(Clean)
  {
    AllRenderedMembers(less, ns, content);
    var n, k :| n in ns && content == RenderArtifact(less, k, n);
    ArtifactReadsBack(less, k, n);
    NamedAreFound(ns, n);
  }

  /** Generate, then check: where no two schemas share a key, the check of all four artifacts of every named schema has no
      issue, and all its verdicts are clean. */
  lemma GenerateThenCheckIsClean(less: (string, string) -> bool, entries: seq<SourceEntry>)
    requires IsKeyOrder(less) && Indexed(AllNamed(entries)).1 == []
    requires forall n | n in AllNamed(entries) :: IsCarried(n)
    ensures var contents := AllRendered(less, AllNamed(entries));
            var js := Judgements(Indexed(AllNamed(entries)).0, contents);
            Issues(js) == [] && |Verdicts(js)| == |contents| && forall v | v in Verdicts(js) :: v == Clean
  {
    var ns := AllNamed(entries);
    var js := Judgements(Indexed(ns).0, AllRendered(less, ns));
    forall i | 0 <= i < |js| ensures js[i] == Ok(Clean) {
      GeneratedIsClean(less, ns, AllRendered(less, ns)[i]);
    }
    NoIssuesIffJudged(js);
    VerdictsInOrder(js);
  }

  lemma {:induction false} FourForEachSchema(less: (string, string) -> bool, ns: seq<Named>)
    ensures |AllRendered(less, ns)| == |GENERATOR_KINDS| * |ns|
  {
    if ns != [] {
      FourForEachSchema(less, Front(ns));
    }
  }
}
