/** Provenance verification of migration entries, and the chain-scoped registry it runs over. */
module Verify {
  import opened Values
  import opened KeyOrder
  import opened Registries

  datatype Status = Bound | CosmeticDrift | Drift | EndpointMissing

  datatype Verdict = Verdict(status: Status, entry: MigrationEntry)

  function Classify(e: MigrationEntry, schemas: SchemaRegistry): Status {
    var from := FindSchema(schemas, e.schemaId, e.fromVersion);
    var to := FindSchema(schemas, e.schemaId, e.toVersion);
    if from.None? || to.None? then EndpointMissing
    else if e.fromIrHash != from.value.irHash || e.toIrHash != to.value.irHash then Drift
    else if e.fromSourceHash != from.value.sourceHash || e.toSourceHash != to.value.sourceHash then CosmeticDrift
    else Bound
  }

  predicate Refused(s: Status) {
    s.Drift? || s.EndpointMissing?
  }

  /** `e` is stored somewhere in the registry. */
  ghost predicate Stored(reg: MigrationRegistry, e: MigrationEntry) {
    exists id, v, edge :: StoredAt(reg, id, v, edge) && edge.entry == e
  }

  ghost predicate StoredAt(reg: MigrationRegistry, id: string, v: string, edge: Edge) {
    id in reg && v in reg[id] && edge in reg[id][v]
  }

  // ---- The visit, in lexicographic order ----

  /** Where an entry is stored. */
  datatype Place = Place(id: string, from: string, to: string)

  predicate PlaceBefore(x: Place, y: Place) {
    || Before(x.id, y.id)
    || (x.id == y.id && (Before(x.from, y.from) || (x.from == y.from && Before(x.to, y.to))))
  }

  predicate IsOrdered(places: seq<Place>) {
    forall i, j | 0 <= i < j < |places| :: PlaceBefore(places[i], places[j])
  }

  function EntryAt(reg: MigrationRegistry, p: Place): Option<MigrationEntry> {
    FindMigration(reg, p.id, p.from, p.to)
  }

  function EntriesAt(reg: MigrationRegistry, places: seq<Place>): seq<MigrationEntry>
    requires forall p | p in places :: EntryAt(reg, p).Some?
  {
    seq(|places|, i requires 0 <= i < |places| => assert places[i] in places; EntryAt(reg, places[i]).value)
  }

  /** Every binding of the registry, once, in order. */
  ghost predicate IsVisit(reg: MigrationRegistry, places: seq<Place>) {
    IsOrdered(places) && forall p :: p in places <==> EntryAt(reg, p).Some?
  }

  lemma OrderedConcat(a: seq<Place>, b: seq<Place>)
    requires IsOrdered(a) && IsOrdered(b) && forall x, y | x in a && y in b :: PlaceBefore(x, y)
    ensures IsOrdered(a + b)
  {
    forall i, j | 0 <= i < j < |a + b| ensures PlaceBefore((a + b)[i], (a + b)[j]) {
      if i < |a| <= j {
        assert a[i] in a && b[j - |a|] in b;
      }
    }
  }

  lemma EntriesConcat(reg: MigrationRegistry, a: seq<Place>, b: seq<Place>)
    requires forall p | p in a + b :: EntryAt(reg, p).Some?
    ensures EntriesAt(reg, a + b) == EntriesAt(reg, a) + EntriesAt(reg, b)
  {
  }

  method IterateRegistry(reg: MigrationRegistry) returns (entries: seq<MigrationEntry>, ghost places: seq<Place>)
    ensures IsVisit(reg, places) && entries == EntriesAt(reg, places)
  {
    entries, places := [], [];
    var ids := SortKeys(reg.Keys);
    for i := 0 to |ids|
      invariant IsOrdered(places)
      invariant forall p :: p in places <==> p.id in ids[..i] && EntryAt(reg, p).Some?
      invariant entries == EntriesAt(reg, places)
    {
      NextKey(ids, i);
      var more, at := IterateFrom(reg, ids[i]);
      OrderedConcat(places, at);
      EntriesConcat(reg, places, at);
      entries, places := entries + more, places + at;
    }
    assert ids[..|ids|] == ids;
  }

  method IterateFrom(reg: MigrationRegistry, id: string) returns (entries: seq<MigrationEntry>, ghost places: seq<Place>)
    requires id in reg
    ensures IsOrdered(places) && forall p :: p in places <==> p.id == id && EntryAt(reg, p).Some?
    ensures entries == EntriesAt(reg, places)
  {
    entries, places := [], [];
    var froms := SortKeys(reg[id].Keys);
    for i := 0 to |froms|
      invariant IsOrdered(places)
      invariant forall p :: p in places <==> p.id == id && p.from in froms[..i] && EntryAt(reg, p).Some?
      invariant entries == EntriesAt(reg, places)
    {
      NextKey(froms, i);
      var more, at := IterateTo(reg, id, froms[i]);
      OrderedConcat(places, at);
      EntriesConcat(reg, places, at);
      entries, places := entries + more, places + at;
    }
    assert froms[..|froms|] == froms;
  }

  method IterateTo(reg: MigrationRegistry, id: string, from: string)
    returns (entries: seq<MigrationEntry>, ghost places: seq<Place>)
    requires id in reg && from in reg[id]
    ensures IsOrdered(places) && forall p :: p in places <==> p.id == id && p.from == from && EntryAt(reg, p).Some?
    ensures entries == EntriesAt(reg, places)
  {
    entries, places := [], [];
    var edges := reg[id][from];
    var tos := SortKeys(set i | 0 <= i < |edges| :: edges[i].to);
    for i := 0 to |tos|
      invariant IsOrdered(places)
      invariant forall p :: p in places <==> p.id == id && p.from == from && p.to in tos[..i]
      invariant forall p | p in places :: EntryAt(reg, p).Some?
      invariant entries == EntriesAt(reg, places)
    {
      NextKey(tos, i);
      var found := FindEdge(edges, tos[i]);
      ghost var at := Place(id, from, tos[i]);
      OrderedConcat(places, [at]);
      EntriesConcat(reg, places, [at]);
      entries, places := entries + [found.value], places + [at];
    }
    assert tos[..|tos|] == tos;
  }

  /** The visit knows the bindings only: registries filled in any order, with the same bindings, are visited alike. */
  lemma VisitIsUnique(reg: MigrationRegistry, reg': MigrationRegistry, places: seq<Place>, places': seq<Place>)
    requires IsVisit(reg, places) && IsVisit(reg', places')
    requires forall p :: EntryAt(reg, p) == EntryAt(reg', p)
    ensures places == places' && EntriesAt(reg, places) == EntriesAt(reg', places')
  {
    forall p ensures p in places <==> p in places' {
      assert EntryAt(reg, p) == EntryAt(reg', p);
    }
    OrderIsUnique(places, places');
  }

  lemma {:induction false} OrderIsUnique(s: seq<Place>, t: seq<Place>)
    requires IsOrdered(s) && IsOrdered(t) && forall p :: p in s <==> p in t
    ensures s == t
    decreases |s|
  {
    if s == [] {
      assert forall i | 0 <= i < |t| :: t[i] in s;
    } else {
      FirstIsFirst(s, t);
      forall p ensures p in s[1..] <==> p in t[1..] {
        RestOfOrdered(s, p);
        RestOfOrdered(t, p);
      }
      OrderIsUnique(s[1..], t[1..]);
      assert s == [s[0]] + s[1..] && t == [t[0]] + t[1..];
    }
  }

  lemma PlacesDiffer(x: Place, y: Place)
    requires PlaceBefore(x, y)
    ensures x != y && !PlaceBefore(y, x)
  {
    if x.id != y.id {
      BeforeIsAsymmetric(x.id, y.id);
    } else {
      BeforeIsIrreflexive(x.id);
      if x.from != y.from {
        BeforeIsAsymmetric(x.from, y.from);
      } else {
        BeforeIsIrreflexive(x.from);
        BeforeIsAsymmetric(x.to, y.to);
      }
    }
  }

  lemma FirstIsFirst(s: seq<Place>, t: seq<Place>)
    requires IsOrdered(s) && IsOrdered(t) && s != [] && forall p :: p in s <==> p in t
    ensures t != [] && s[0] == t[0]
  {
    assert s[0] in t;
    assert t[0] in s;
    if s[0] != t[0] {
      assert PlaceBefore(t[0], s[0]) && PlaceBefore(s[0], t[0]);
      PlacesDiffer(s[0], t[0]);
    }
  }

  lemma RestOfOrdered(s: seq<Place>, p: Place)
    requires IsOrdered(s) && s != []
    ensures p in s[1..] <==> p in s && p != s[0]
  {
    if p in s[1..] {
      PlacesDiffer(s[0], p);
    }
    assert s == [s[0]] + s[1..];
  }

  // ---- The verdicts ----

  function VerdictOf(schemas: SchemaRegistry, e: MigrationEntry): Verdict {
    Verdict(Classify(e, schemas), e)
  }

  function VerdictsOf(schemas: SchemaRegistry, entries: seq<MigrationEntry>): seq<Verdict> {
    seq(|entries|, i requires 0 <= i < |entries| => VerdictOf(schemas, entries[i]))
  }

  function RefusedOf(verdicts: seq<Verdict>): seq<Verdict> {
    if verdicts == [] then []
    else RefusedOf(Front(verdicts)) + if Refused(LastOf(verdicts).status) then [LastOf(verdicts)] else []
  }

  function Tally(verdicts: seq<Verdict>, s: Status): nat {
    if verdicts == [] then 0
    else Tally(Front(verdicts), s) + if LastOf(verdicts).status == s then 1 else 0
  }

  datatype Summary = Summary(bound: nat, cosmeticDrift: nat, drift: nat, missingEndpoint: nat)

  function SummaryOf(verdicts: seq<Verdict>): Summary {
    Summary(Tally(verdicts, Bound), Tally(verdicts, CosmeticDrift), Tally(verdicts, Drift), Tally(verdicts, EndpointMissing))
  }

  datatype VerificationResult = VerificationResult(verdicts: seq<Verdict>, summary: Summary)

  /** `summary[status] += 1`. */
  function Counted(summary: Summary, s: Status): Summary {
    match s
    case Bound => summary.(bound := summary.bound + 1)
    case CosmeticDrift => summary.(cosmeticDrift := summary.cosmeticDrift + 1)
    case Drift => summary.(drift := summary.drift + 1)
    case EndpointMissing => summary.(missingEndpoint := summary.missingEndpoint + 1)
  }

  /** All verdicts and their counts, or the refused ones if there are any. */
  function ReportOf(verdicts: seq<Verdict>): Result<VerificationResult, seq<Verdict>> {
    if RefusedOf(verdicts) == [] then Ok(VerificationResult(verdicts, SummaryOf(verdicts))) else Err(RefusedOf(verdicts))
  }

  method VerifyMigrationProvenance(schemas: SchemaRegistry, reg: MigrationRegistry)
    returns (r: Result<VerificationResult, seq<Verdict>>, ghost places: seq<Place>)
    ensures IsVisit(reg, places) && r == ReportOf(VerdictsOf(schemas, EntriesAt(reg, places)))
  {
    var verdicts: seq<Verdict>, issues: seq<Verdict>, summary := [], [], Summary(0, 0, 0, 0);
    var entries, visit := IterateRegistry(reg);
    places := visit;
    for i := 0 to |entries|
      invariant verdicts == VerdictsOf(schemas, entries)[..i]
      invariant issues == RefusedOf(verdicts) && summary == SummaryOf(verdicts)
    {
      var verdict := VerdictOf(schemas, entries[i]);
      VerdictStep(verdicts, verdict);
      verdicts := verdicts + [verdict];
      summary := Counted(summary, verdict.status);
      if verdict.status.Drift? || verdict.status.EndpointMissing? {
        issues := issues + [verdict];
      }
    }
    assert VerdictsOf(schemas, entries)[..|entries|] == VerdictsOf(schemas, entries);
    r := if |issues| > 0 then Err(issues) else Ok(VerificationResult(verdicts, summary));
  }

  lemma VerdictStep(verdicts: seq<Verdict>, v: Verdict)
    ensures RefusedOf(verdicts + [v]) == RefusedOf(verdicts) + if Refused(v.status) then [v] else []
    ensures SummaryOf(verdicts + [v]) == Counted(SummaryOf(verdicts), v.status)
  {
    assert Front(verdicts + [v]) == verdicts && LastOf(verdicts + [v]) == v;
  }

  lemma {:induction false} RefusedMembers(verdicts: seq<Verdict>, x: Verdict)
    ensures x in RefusedOf(verdicts) <==> x in verdicts && Refused(x.status)
  {
    if verdicts != [] {
      RefusedMembers(Front(verdicts), x);
      assert verdicts == Front(verdicts) + [LastOf(verdicts)];
    }
  }

  lemma {:induction false} TallyCounts(verdicts: seq<Verdict>, s: Status)
    ensures Tally(verdicts, s) > 0 <==> exists x | x in verdicts :: x.status == s
  {
    if verdicts != [] {
      TallyCounts(Front(verdicts), s);
      assert verdicts == Front(verdicts) + [LastOf(verdicts)];
    }
  }

  /** Every verdict is counted once, under its status. */
  lemma {:induction false} SummaryAddsUp(verdicts: seq<Verdict>)
    ensures var s := SummaryOf(verdicts); s.bound + s.cosmeticDrift + s.drift + s.missingEndpoint == |verdicts|
  {
    if verdicts != [] {
      SummaryAddsUp(Front(verdicts));
    }
  }

  /** What is stored is what the visit meets, where a map holds a key once. */
  lemma VisitMeetsStored(reg: MigrationRegistry, places: seq<Place>, e: MigrationEntry)
    requires IsVisit(reg, places) && forall id | id in reg :: IsAdjacency(reg[id])
    ensures e in EntriesAt(reg, places) <==> Stored(reg, e)
  {
    if e in EntriesAt(reg, places) {
      var i :| 0 <= i < |places| && EntriesAt(reg, places)[i] == e;
      var p := places[i];
      assert p in places;
      var k :| 0 <= k < |reg[p.id][p.from]| && reg[p.id][p.from][k] == Edge(p.to, e);
      assert StoredAt(reg, p.id, p.from, Edge(p.to, e));
    }
    if Stored(reg, e) {
      var id, v, edge :| StoredAt(reg, id, v, edge) && edge.entry == e;
      FindEdgeOfMember(reg[id][v], edge);
      var p := Place(id, v, edge.to);
      assert p in places;
      var i :| 0 <= i < |places| && places[i] == p;
      assert EntriesAt(reg, places)[i] == e;
    }
  }

  lemma FindEdgeOfMember(edges: seq<Edge>, edge: Edge)
    requires KeysOnce(edges) && edge in edges
    ensures FindEdge(edges, edge.to) == Some(edge.entry)
  {
    var i :| 0 <= i < |edges| && edges[i] == edge;
    var k :| 0 <= k < |edges| && edges[k].to == edge.to && FindEdge(edges, edge.to) == Some(edges[k].entry);
  }

  lemma VerdictMeetsStored(schemas: SchemaRegistry, reg: MigrationRegistry, places: seq<Place>, x: Verdict)
    requires IsVisit(reg, places) && forall id | id in reg :: IsAdjacency(reg[id])
    ensures x in VerdictsOf(schemas, EntriesAt(reg, places)) <==> Stored(reg, x.entry) && x.status == Classify(x.entry, schemas)
  {
    var entries := EntriesAt(reg, places);
    var verdicts := VerdictsOf(schemas, entries);
    VisitMeetsStored(reg, places, x.entry);
    if x.entry in entries {
      var i :| 0 <= i < |entries| && entries[i] == x.entry;
      assert verdicts[i] == VerdictOf(schemas, x.entry);
    }
  }

  /** It succeeds exactly when no stored entry is refused; `cosmetic_drift` alone does not fail. A failure carries the
      refused verdicts and no others; a success all of them, counted by status. */
  lemma ReportIsRight(schemas: SchemaRegistry, reg: MigrationRegistry, places: seq<Place>)
    requires IsVisit(reg, places) && forall id | id in reg :: IsAdjacency(reg[id])
    ensures var r := ReportOf(VerdictsOf(schemas, EntriesAt(reg, places)));
            && (r.Ok? <==> forall e | Stored(reg, e) :: !Refused(Classify(e, schemas)))
            && (r.Ok? ==> forall x :: x in r.value.verdicts <==> Stored(reg, x.entry) && x.status == Classify(x.entry, schemas))
            && (r.Ok? ==> CountsVerdicts(r.value))
            && (r.Ok? ==> (r.value.summary.cosmeticDrift > 0 <==> exists e :: Stored(reg, e) && Classify(e, schemas).CosmeticDrift?))
            && (r.Err? ==> forall x :: x in r.error <==>
                  Stored(reg, x.entry) && x.status == Classify(x.entry, schemas) && Refused(x.status))
  {
    var verdicts := VerdictsOf(schemas, EntriesAt(reg, places));
    forall x ensures x in verdicts <==> Stored(reg, x.entry) && x.status == Classify(x.entry, schemas) {
      VerdictMeetsStored(schemas, reg, places, x);
    }
    forall x ensures x in RefusedOf(verdicts) <==> x in verdicts && Refused(x.status) {
      RefusedMembers(verdicts, x);
    }
    forall e | Stored(reg, e) && Refused(Classify(e, schemas)) ensures RefusedOf(verdicts) != [] {
      assert VerdictOf(schemas, e) in RefusedOf(verdicts);
    }
    if RefusedOf(verdicts) == [] {
      SuccessIsCounted(schemas, reg, verdicts);
    } else {
      assert RefusedOf(verdicts)[0] in RefusedOf(verdicts);
    }
  }

  /** Of a success: only two of the four counts are not zero, and they account for every verdict. */
  predicate CountsVerdicts(v: VerificationResult) {
    && v.summary.drift == 0 == v.summary.missingEndpoint
    && v.summary.bound + v.summary.cosmeticDrift == |v.verdicts|
  }

  lemma SuccessIsCounted(schemas: SchemaRegistry, reg: MigrationRegistry, verdicts: seq<Verdict>)
    requires forall x :: x in verdicts <==> Stored(reg, x.entry) && x.status == Classify(x.entry, schemas)
    requires forall x | x in verdicts :: !Refused(x.status)
    ensures CountsVerdicts(VerificationResult(verdicts, SummaryOf(verdicts)))
    ensures SummaryOf(verdicts).cosmeticDrift > 0 <==> exists e :: Stored(reg, e) && Classify(e, schemas).CosmeticDrift?
  {
    SummaryAddsUp(verdicts);
    TallyCounts(verdicts, Drift);
    TallyCounts(verdicts, EndpointMissing);
    TallyCounts(verdicts, CosmeticDrift);
    if e :| Stored(reg, e) && Classify(e, schemas).CosmeticDrift? {
      assert VerdictOf(schemas, e) in verdicts;
    }
  }

  // ---- The chain-scoped registry ----

  /** `map.set(to, entry)` on the innermost map: a present key keeps its place and takes the new entry. */
  function MapSet(edges: seq<Edge>, to: string, e: MigrationEntry): seq<Edge> {
    if edges == [] then [Edge(to, e)]
    else if edges[0].to == to then [Edge(to, e)] + edges[1..]
    else [edges[0]] + MapSet(edges[1..], to, e)
  }

  lemma {:induction false} MapSetKeepsKeys(edges: seq<Edge>, to: string, e: MigrationEntry)
    requires KeysOnce(edges)
    ensures KeysOnce(MapSet(edges, to, e))
    ensures forall x | x in MapSet(edges, to, e) :: x == Edge(to, e) || x in edges
  {
    if edges != [] && edges[0].to != to {
      var rest := MapSet(edges[1..], to, e);
      MapSetKeepsKeys(edges[1..], to, e);
      forall i | 0 <= i < |rest| ensures rest[i].to != edges[0].to {
        assert rest[i] in rest;
      }
    }
  }

  function Insert(reg: MigrationRegistry, e: MigrationEntry): MigrationRegistry {
    var byFrom := if e.schemaId in reg then reg[e.schemaId] else map[];
    var byTo := if e.fromVersion in byFrom then byFrom[e.fromVersion] else [];
    reg[e.schemaId := byFrom[e.fromVersion := MapSet(byTo, e.toVersion, e)]]
  }

  function Scoped(chain: seq<MigrationEntry>): MigrationRegistry {
    if chain == [] then map[] else Insert(Scoped(Front(chain)), LastOf(chain))
  }

  lemma {:induction false} ScopedIsAdjacency(chain: seq<MigrationEntry>)
    ensures forall id | id in Scoped(chain) :: IsAdjacency(Scoped(chain)[id])
  {
    if chain != [] {
      var reg, e := Scoped(Front(chain)), LastOf(chain);
      ScopedIsAdjacency(Front(chain));
      if e.schemaId in reg && e.fromVersion in reg[e.schemaId] {
        MapSetKeepsKeys(reg[e.schemaId][e.fromVersion], e.toVersion, e);
      }
    }
  }

  method BuildChainScopedRegistry(chain: seq<MigrationEntry>) returns (out: MigrationRegistry)
    ensures out == Scoped(chain)
  {
    out := map[];
    for i := 0 to |chain|
      invariant out == Scoped(chain[..i])
    {
      assert Front(chain[..i + 1]) == chain[..i];
      var e := chain[i];
      var byFrom := map[];
      if e.schemaId in out {
        byFrom := out[e.schemaId];
      }
      var byTo := [];
      if e.fromVersion in byFrom {
        byTo := byFrom[e.fromVersion];
      }
      out := out[e.schemaId := byFrom[e.fromVersion := MapSet(byTo, e.toVersion, e)]];
    }
    assert chain[..|chain|] == chain;
  }

  lemma InsertFresh(reg: MigrationRegistry, e: MigrationEntry, x: MigrationEntry)
    requires e.schemaId in reg ==> e.fromVersion !in reg[e.schemaId]
    ensures Stored(Insert(reg, e), x) <==> Stored(reg, x) || x == e
  {
    var out := Insert(reg, e);
    assert MapSet([], e.toVersion, e) == [Edge(e.toVersion, e)];
    assert StoredAt(out, e.schemaId, e.fromVersion, Edge(e.toVersion, e));
    if Stored(reg, x) {
      var id, v, edge :| StoredAt(reg, id, v, edge) && edge.entry == x;
      assert StoredAt(out, id, v, edge);
    }
    if Stored(out, x) && x != e {
      var id, v, edge :| StoredAt(out, id, v, edge) && edge.entry == x;
      assert StoredAt(reg, id, v, edge);
    }
  }

  /** The registry the verifier sees holds exactly the chain, when its hops leave distinct versions. */
  lemma {:induction false} ScopedHoldsExactlyTheChain(chain: seq<MigrationEntry>, x: MigrationEntry)
    requires forall i, j | 0 <= i < j < |chain| :: chain[i].fromVersion != chain[j].fromVersion
    ensures Stored(Scoped(chain), x) <==> x in chain
    ensures forall id | id in Scoped(chain) :: forall v | v in Scoped(chain)[id] :: exists i | 0 <= i < |chain| :: chain[i].fromVersion == v
    decreases |chain|
  {
    if chain != [] {
      var init := Front(chain);
      ScopedHoldsExactlyTheChain(init, x);
      assert LastOf(chain).schemaId in Scoped(init) ==> LastOf(chain).fromVersion !in Scoped(init)[LastOf(chain).schemaId];
      InsertFresh(Scoped(init), LastOf(chain), x);
      assert x in chain <==> x in init || x == LastOf(chain);
      forall id | id in Scoped(chain)
        ensures forall v | v in Scoped(chain)[id] :: exists i | 0 <= i < |chain| :: chain[i].fromVersion == v
      {
        forall v | v in Scoped(chain)[id] ensures exists i | 0 <= i < |chain| :: chain[i].fromVersion == v {
          if v == LastOf(chain).fromVersion {
            assert chain[|chain| - 1].fromVersion == v;
          } else {
            assert id in Scoped(init) && v in Scoped(init)[id];
            var i :| 0 <= i < |init| && init[i].fromVersion == v;
            assert chain[i].fromVersion == v;
          }
        }
      }
    }
  }
}
