/** The migration planner: a diff decides whether a chain is needed, the chain search finds it. */
module Planner {
  import opened Values
  import opened Schema
  import opened Diff
  import opened DiffWalker
  import opened DiffLimits
  import opened Registries
  import opened Chains

  datatype PlanNote = OverSpecified(migration: MigrationEntry) | AdditiveNoMigration

  datatype Plan = Plan(
    schemaId: string, chain: seq<MigrationEntry>, versionPath: seq<string>,
    worst: Option<Severity>, notes: seq<PlanNote>)

  datatype PlanError =
    | MissingEndpoint(fromMissing: bool, toMissing: bool)
    | NotFound
    | ChainBroken
    | AmbiguousChain(count: nat)

  // ---- What a plan must be ----

  ghost predicate IsOnlySimplePath(adj: Adjacency, from: string, to: string, p: seq<Edge>) {
    IsSimplePath(adj, from, to, p) && forall q | IsSimplePath(adj, from, to, q) :: q == p
  }

  ghost predicate HasTwoSimplePaths(adj: Adjacency, from: string, to: string) {
    exists p, q :: p != q && IsSimplePath(adj, from, to, p) && IsSimplePath(adj, from, to, q)
  }

  ghost function PathPlan(schemaId: string, from: string, p: seq<Edge>): Plan {
    Plan(schemaId, Entries(p), [from] + ToVersions(Entries(p)), Some(Breaking), [])
  }

  ghost function ToVersions(chain: seq<MigrationEntry>): seq<string> {
    seq(|chain|, i requires 0 <= i < |chain| => chain[i].toVersion)
  }

  /** On a breaking diff: refused if nothing bridges, refused if two simple chains do, else the only one. */
  ghost predicate IsBreakingPlan(adj: Adjacency, schemaId: string, from: string, to: string, r: Result<Plan, PlanError>) {
    if adj == map[] then r == Err(NotFound)
    else
      && (r == Err(ChainBroken) <==> forall p :: !Joins(adj, from, to, p))
      && ((r.Err? && r.error.AmbiguousChain?) <==> HasTwoSimplePaths(adj, from, to))
      && (r.Ok? <==> exists p :: IsOnlySimplePath(adj, from, to, p) && r == Ok(PathPlan(schemaId, from, p)))
      && (r.Err? ==> r.error.ChainBroken? || r.error.AmbiguousChain?)
  }

  /** The severity table. */
  ghost predicate IsPlan(migrations: MigrationRegistry, schemaId: string, from: string, to: string,
                         worst: Option<Severity>, r: Result<Plan, PlanError>) {
    var exact := FindMigration(migrations, schemaId, from, to);
    match worst
    case None | Some(Cosmetic) =>
      r == Ok(Plan(schemaId, [], [from, to], worst, if exact.Some? then [OverSpecified(exact.value)] else []))
    case Some(Additive) =>
      r == Ok(if exact.Some? then Plan(schemaId, [exact.value], [from, to], worst, [])
              else Plan(schemaId, [], [from, to], worst, [AdditiveNoMigration]))
    case Some(Breaking) =>
      IsBreakingPlan(if schemaId in migrations then migrations[schemaId] else map[], schemaId, from, to, r)
  }

  /** `r` is the planner's answer: both endpoints must exist, and the worst severity between them selects the row. */
  ghost predicate Answers(schemas: SchemaRegistry, migrations: MigrationRegistry, schemaId: string, from: string, to: string,
                          r: Result<Plan, PlanError>)
    requires SchemasWellKeyed(schemas)
  {
    var b, a := FindSchema(schemas, schemaId, from), FindSchema(schemas, schemaId, to);
    if b.None? || a.None? then r == Err(MissingEndpoint(b.None?, a.None?))
    else exists worst :: IsWorst(Walk(b.value.node, a.value.node, []), worst)
                         && IsPlan(migrations, schemaId, from, to, worst, r)
  }

  // ---- The planner ----

  method PlanMigration(schemas: SchemaRegistry, migrations: MigrationRegistry, schemaId: string, from: string, to: string)
    returns (r: Result<Plan, PlanError>)
    requires SchemasWellKeyed(schemas)
    requires forall id | id in migrations :: IsAdjacency(migrations[id])
    ensures Answers(schemas, migrations, schemaId, from, to, r)
  {
    var fromEntry, toEntry := FindSchema(schemas, schemaId, from), FindSchema(schemas, schemaId, to);
    if fromEntry.None? || toEntry.None? {
      return Err(MissingEndpoint(fromEntry.None?, toEntry.None?));
    }
    var changes := DiffNodes(fromEntry.value.node, toEntry.value.node);
    var worst := ComputeWorstSeverity(changes);
    var exact := FindMigration(migrations, schemaId, from, to);
    if worst == None || worst == Some(Cosmetic) {
      var notes := if exact.Some? then [OverSpecified(exact.value)] else [];
      return Ok(Plan(schemaId, [], [from, to], worst, notes));
    }
    if worst == Some(Additive) {
      if exact.Some? {
        return Ok(Plan(schemaId, [exact.value], [from, to], worst, []));
      }
      return Ok(Plan(schemaId, [], [from, to], worst, [AdditiveNoMigration]));
    }
    assert from != to by {
      if from == to {
        WalkSelf(fromEntry.value.node, []);
      }
    }
    r := ResolveChain(migrations, schemaId, from, to);
  }

  method ResolveChain(migrations: MigrationRegistry, schemaId: string, from: string, to: string)
    returns (r: Result<Plan, PlanError>)
    requires from != to
    requires forall id | id in migrations :: IsAdjacency(migrations[id])
    ensures IsPlan(migrations, schemaId, from, to, Some(Breaking), r)
  {
    if schemaId !in migrations || |migrations[schemaId]| == 0 {
      return Err(NotFound);
    }
    var adj := migrations[schemaId];
    var chains := EnumerateChains(adj, from, to);
    ghost var ps := Paths(adj, from, to, {from});
    NoPathsMeansUnreachable(adj, from, to);
    CountIsExact(adj, from, to);
    if |chains| == 0 {
      return Err(ChainBroken);
    }
    if |chains| > 1 {
      return Err(AmbiguousChain(|chains|));
    }
    assert chains[0] == Entries(ps[0]) != [];
    var versionPath := VersionPathFromChain(from, chains[0]);
    r := Ok(Plan(schemaId, chains[0], versionPath, Some(Breaking), []));
    assert r == Ok(PathPlan(schemaId, from, ps[0]));
  }

  /** How many chains the search found says how many simple paths there are. */
  lemma CountIsExact(adj: Adjacency, from: string, to: string)
    requires IsAdjacency(adj) && from != to
    ensures var ps := Paths(adj, from, to, {from});
            && (|ps| > 1 <==> HasTwoSimplePaths(adj, from, to))
            && (|ps| == 1 <==> exists p :: IsOnlySimplePath(adj, from, to, p))
            && (|ps| == 1 ==> IsOnlySimplePath(adj, from, to, ps[0]))
  {
    var ps := Paths(adj, from, to, {from});
    EnumerationIsExact(adj, from, to);
    if |ps| > 1 {
      assert ps[0] in ps && ps[1] in ps && ps[0] != ps[1];
    }
    if |ps| == 1 {
      assert ps[0] in ps;
      assert IsOnlySimplePath(adj, from, to, ps[0]);
    }
    forall p | IsOnlySimplePath(adj, from, to, p) ensures ps == [p] {
      assert p in ps;
      forall i | 0 <= i < |ps| ensures ps[i] == p {
        assert ps[i] in ps;
      }
    }
  }

  method VersionPathFromChain(from: string, chain: seq<MigrationEntry>) returns (path: seq<string>)
    ensures path == if chain == [] then [from, from] else [from] + ToVersions(chain)
  {
    if |chain| == 0 {
      return [from, from];
    }
    path := [from];
    for i := 0 to |chain|
      invariant path == [from] + ToVersions(chain[..i])
    {
      path := path + [chain[i].toVersion];
    }
    assert chain[..|chain|] == chain;
  }

  // ---- What a plan gives its caller, over a registry that stores entries under their own triple ----

  /** The chain starts at `from`, ends at `to`, and each hop leaves from where the last arrived. */
  ghost predicate IsHopChain(schemaId: string, from: string, to: string, chain: seq<MigrationEntry>) {
    && chain != []
    && (forall e | e in chain :: e.schemaId == schemaId)
    && chain[0].fromVersion == from && chain[|chain| - 1].toVersion == to
    && forall i | 0 < i < |chain| :: chain[i].fromVersion == chain[i - 1].toVersion
  }

  /** Every entry of the path carries the versions its edge joins. */
  ghost predicate EntriesFollow(schemaId: string, start: string, p: seq<Edge>) {
    forall i | 0 <= i < |p| ::
      p[i].entry.schemaId == schemaId && p[i].entry.toVersion == p[i].to && p[i].entry.fromVersion == Versions(start, p)[i]
  }

  lemma {:induction false} WalkEntries(migrations: MigrationRegistry, schemaId: string, start: string, p: seq<Edge>)
    requires KeysAgree(migrations) && schemaId in migrations && IsWalk(migrations[schemaId], start, p)
    ensures EntriesFollow(schemaId, start, p)
    decreases |p|
  {
    if p != [] {
      WalkEntries(migrations, schemaId, p[0].to, p[1..]);
      forall i | 0 < i < |p|
        ensures p[i].entry.schemaId == schemaId && p[i].entry.toVersion == p[i].to
                && p[i].entry.fromVersion == Versions(start, p)[i]
      {
        assert p[i] == p[1..][i - 1];
      }
    }
  }

  /** The version path of a resolved chain meets no version twice, joins the endpoints, and its pairs are the hops. */
  ghost predicate IsVersionPath(schemaId: string, to: string, chain: seq<MigrationEntry>, path: seq<string>) {
    && |path| == |chain| + 1 && NoRepeats(path) && path[|chain|] == to
    && forall i | 0 <= i < |chain| ::
         chain[i].schemaId == schemaId && chain[i].fromVersion == path[i] && chain[i].toVersion == path[i + 1]
  }

  lemma PathGivesVersionPath(schemaId: string, from: string, to: string, p: seq<Edge>)
    requires EntriesFollow(schemaId, from, p) && NoRepeats(Versions(from, p)) && WalkEnd(from, p) == to
    ensures IsVersionPath(schemaId, to, Entries(p), [from] + ToVersions(Entries(p)))
  {
    assert [from] + ToVersions(Entries(p)) == Versions(from, p);
  }

  lemma VersionPathIsTheChain(migrations: MigrationRegistry, schemaId: string, from: string, to: string, p: seq<Edge>)
    requires KeysAgree(migrations) && schemaId in migrations && IsSimplePath(migrations[schemaId], from, to, p)
    ensures var plan := PathPlan(schemaId, from, p);
            IsVersionPath(schemaId, to, plan.chain, plan.versionPath) && plan.versionPath[0] == from
  {
    WalkEntries(migrations, schemaId, from, p);
    PathGivesVersionPath(schemaId, from, to, p);
  }

  lemma VersionPathIsHopChain(schemaId: string, to: string, chain: seq<MigrationEntry>, path: seq<string>)
    requires chain != [] && IsVersionPath(schemaId, to, chain, path)
    ensures IsHopChain(schemaId, path[0], to, chain)
    ensures forall i, j | 0 <= i < j < |chain| :: chain[i].fromVersion != chain[j].fromVersion
  {
    assert forall i | 0 < i < |chain| :: chain[i - 1].toVersion == path[i];
  }

  lemma PathChainIsHopChain(migrations: MigrationRegistry, schemaId: string, from: string, to: string, p: seq<Edge>)
    requires KeysAgree(migrations) && schemaId in migrations && IsSimplePath(migrations[schemaId], from, to, p)
    requires PathPlan(schemaId, from, p).chain != []
    ensures var chain := PathPlan(schemaId, from, p).chain;
            && IsHopChain(schemaId, from, to, chain)
            && forall i, j | 0 <= i < j < |chain| :: chain[i].fromVersion != chain[j].fromVersion
  {
    var plan := PathPlan(schemaId, from, p);
    VersionPathIsTheChain(migrations, schemaId, from, to, p);
    VersionPathIsHopChain(schemaId, to, plan.chain, plan.versionPath);
  }

  /** A plan's non-empty chain is a hop chain between the requested versions, and its hops leave distinct versions. */
  lemma PlannedChainIsHopChain(migrations: MigrationRegistry, schemaId: string, from: string, to: string,
                               worst: Option<Severity>, plan: Plan)
    requires KeysAgree(migrations) && IsPlan(migrations, schemaId, from, to, worst, Ok(plan)) && plan.chain != []
    ensures IsHopChain(schemaId, from, to, plan.chain)
    ensures forall i, j | 0 <= i < j < |plan.chain| :: plan.chain[i].fromVersion != plan.chain[j].fromVersion
  {
    if worst == Some(Breaking) {
      var p :| IsOnlySimplePath(migrations[schemaId], from, to, p) && plan == PathPlan(schemaId, from, p);
      PathChainIsHopChain(migrations, schemaId, from, to, p);
    }
  }
}
