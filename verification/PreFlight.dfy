/** Pre-flight: plan against the workspace, then verify the chain and nothing else. */
module PreFlight {
  import opened Values
  import opened Schema
  import opened Diff
  import opened Registries
  import opened Planner
  import opened Verify

  datatype PreFlightSuccess = PreFlightSuccess(
    chain: seq<MigrationEntry>, versionPath: seq<string>, worst: Option<Severity>, notes: seq<PlanNote>,
    scoped: MigrationRegistry)

  datatype PreFlightError = PlanRefused(error: PlanError) | VerificationRefused | CosmeticDriftRefused

  /** Some hop of the chain has this status against the registry. */
  ghost predicate SomeHop(chain: seq<MigrationEntry>, schemas: SchemaRegistry, bad: Status -> bool) {
    exists e | e in chain :: bad(Classify(e, schemas))
  }

  /** The chain goes from `from` to `to`, and every hop binds to the registered schemas. */
  ghost predicate IsClearedChain(schemas: SchemaRegistry, schemaId: string, from: string, to: string,
                                 allowCosmeticDrift: bool, chain: seq<MigrationEntry>) {
    && IsHopChain(schemaId, from, to, chain)
    && forall e | e in chain :: Classify(e, schemas).Bound? || (allowCosmeticDrift && Classify(e, schemas).CosmeticDrift?)
  }

  method RunPreFlight(schemas: SchemaRegistry, migrations: MigrationRegistry, schemaId: string, from: string, to: string,
                      allowCosmeticDrift: bool)
    returns (r: Result<PreFlightSuccess, PreFlightError>, ghost plan: Result<Plan, PlanError>)
    requires SchemasWellKeyed(schemas) && KeysAgree(migrations)
    ensures Answers(schemas, migrations, schemaId, from, to, plan)
    ensures plan.Err? ==> r == Err(PlanRefused(plan.error))
    ensures plan.Ok? && plan.value.chain == [] ==> r.Ok? && r.value.scoped == map[]
    ensures plan.Ok? && plan.value.chain != [] ==>
      if SomeHop(plan.value.chain, schemas, s => Refused(s)) then r == Err(VerificationRefused)
      else if !allowCosmeticDrift && SomeHop(plan.value.chain, schemas, s => s == CosmeticDrift)
      then r == Err(CosmeticDriftRefused)
      else r.Ok? && IsClearedChain(schemas, schemaId, from, to, allowCosmeticDrift, plan.value.chain)
                 && forall x :: Stored(r.value.scoped, x) <==> x in plan.value.chain
    ensures r.Ok? ==> plan == Ok(Plan(schemaId, r.value.chain, r.value.versionPath, r.value.worst, r.value.notes))
  {
    var planned := PlanMigration(schemas, migrations, schemaId, from, to);
    plan := planned;
    if planned.Err? {
      return Err(PlanRefused(planned.error)), plan;
    }
    var p := planned.value;
    PlanNamesItsSchema(schemas, migrations, schemaId, from, to, p);
    if |p.chain| == 0 {
      return Ok(PreFlightSuccess([], p.versionPath, p.worst, p.notes, map[])), plan;
    }
    var scoped := BuildChainScopedRegistry(p.chain);
    PlannedChainHops(schemas, migrations, schemaId, from, to, p);
    forall x ensures Stored(scoped, x) <==> x in p.chain {
      ScopedHoldsExactlyTheChain(p.chain, x);
    }
    var verify, places := VerifyMigrationProvenance(schemas, scoped);
    ScopedIsAdjacency(p.chain);
    ReportIsRight(schemas, scoped, places);
    if verify.Err? {
      return Err(VerificationRefused), plan;
    }
    if !allowCosmeticDrift && verify.value.summary.cosmeticDrift > 0 {
      return Err(CosmeticDriftRefused), plan;
    }
    r := Ok(PreFlightSuccess(p.chain, p.versionPath, p.worst, p.notes, scoped));
    forall e | e in p.chain
      ensures Classify(e, schemas).Bound? || (allowCosmeticDrift && Classify(e, schemas).CosmeticDrift?)
    {
      assert Stored(scoped, e);
    }
  }

  lemma PlanNamesItsSchema(schemas: SchemaRegistry, migrations: MigrationRegistry, schemaId: string, from: string, to: string,
                           plan: Plan)
    requires SchemasWellKeyed(schemas) && Answers(schemas, migrations, schemaId, from, to, Ok(plan))
    ensures plan.schemaId == schemaId
  {
  }

  lemma PlannedChainHops(schemas: SchemaRegistry, migrations: MigrationRegistry, schemaId: string, from: string, to: string,
                         plan: Plan)
    requires SchemasWellKeyed(schemas) && KeysAgree(migrations)
    requires Answers(schemas, migrations, schemaId, from, to, Ok(plan)) && plan.chain != []
    ensures IsHopChain(schemaId, from, to, plan.chain)
    ensures forall i, j | 0 <= i < j < |plan.chain| :: plan.chain[i].fromVersion != plan.chain[j].fromVersion
  {
    var b, a := FindSchema(schemas, schemaId, from), FindSchema(schemas, schemaId, to);
    var worst :| IsWorst(Walk(b.value.node, a.value.node, []), worst) && IsPlan(migrations, schemaId, from, to, worst, Ok(plan));
    PlannedChainIsHopChain(migrations, schemaId, from, to, worst, plan);
  }

  /** A cleared chain has both of its endpoint schemas, so the pipeline never fails for a missing one. */
  lemma ClearedChainFindsSchemas(schemas: SchemaRegistry, schemaId: string, from: string, to: string,
                                 allowCosmeticDrift: bool, chain: seq<MigrationEntry>)
    requires IsClearedChain(schemas, schemaId, from, to, allowCosmeticDrift, chain)
    ensures FindSchema(schemas, chain[0].schemaId, chain[0].fromVersion) == FindSchema(schemas, schemaId, from)
    ensures FindSchema(schemas, chain[|chain| - 1].schemaId, chain[|chain| - 1].toVersion) == FindSchema(schemas, schemaId, to)
    ensures FindSchema(schemas, schemaId, from).Some? && FindSchema(schemas, schemaId, to).Some?
    ensures forall e | e in chain ::
      && e.fromIrHash == schemas[schemaId][e.fromVersion].irHash
      && e.toIrHash == schemas[schemaId][e.toVersion].irHash
  {
    assert chain[0] in chain && chain[|chain| - 1] in chain;
  }
}
