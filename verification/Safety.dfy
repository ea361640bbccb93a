/** Migration safety end to end: what a caller of the runner may conclude from its result. */
module Safety {
  import opened Values
  import opened Schema
  import opened Diff
  import opened DiffSoundness
  import opened Registries
  import opened Planner
  import opened PreFlight
  import opened RunTypes
  import opened Pipeline
  import opened Adapters
  import opened Walks
  import opened Runner
  import opened Resume

  /** The runs of one session share the runId, the stream, the schemas and the chain. */
  ghost function CommonOf(job: Job): Common
    requires job.chain != []
  {
    Common(job.opts.runId, |job.world.stream|, MigrationOf(job.fm, job.schemas, job.chain, job.world.stream))
  }

  ghost function MigrationOf(fm: Formats, schemas: SchemaRegistry, chain: seq<MigrationEntry>, stream: seq<Value>):
    (nat, Value) -> bool
    requires chain != []
  {
    (i: nat, o: Value) => i < |stream| && MigratesTo(fm, schemas, chain, stream[i], o)
  }

  /** Jobs that agree on these belong to one session, whatever their modes and worlds. */
  lemma SameSession(job: Job, other: Job)
    requires job.chain == other.chain != [] && job.fm == other.fm && job.schemas == other.schemas
    requires job.world.stream == other.world.stream && job.opts.runId == other.opts.runId
    ensures CommonOf(job) == CommonOf(other)
  {
  }

  /** The walking runs of the runner are the episodes of a session, so every theorem about sessions is about them. */
  lemma RunIsEpisode(job: Job, before: Logs, skip: set<nat>, n: nat, torn: bool, plan: Result<Plan, PlanError>, r: RunResult)
    requires job.chain != [] && IsRunResult(job, skip, n, torn, plan, r)
    requires skip == CursorSet(before.audit, job.opts.runId)
    ensures var after := Logs(before.audit + LoggedBy(job, skip, n), before.writes + WrittenBy(job, skip, n, torn));
            IsEpisode(CommonOf(job), before, Episode(TapeOf(job), job.opts, job.world, skip, n, torn, r), after)
  {
    TapeOfRun(job, TapeOf(job));
    WalkIsEpisode(CommonOf(job), before, Episode(TapeOf(job), job.opts, job.world, skip, n, torn, r));
    WalkedRun(job, skip, n, torn, plan, r);
  }

  lemma WalkIsEpisode(c: Common, before: Logs, e: Episode)
    requires IsRunTape(c, e.opts.mode, e.tape) && e.skip == CursorSet(before.audit, c.runId)
    requires IsWalkResult(e.tape, e.opts, e.world, e.skip, e.n, e.torn, e.r)
    ensures IsEpisode(c, before, e, Logs(before.audit + EntriesUpTo(e.tape, e.skip, e.n),
                                         before.writes + WritesUpTo(e.tape, e.skip, Reached(e))))
  {
  }

  lemma TapeOfRun(job: Job, tape: seq<Trace>)
    requires job.chain != [] && tape == TapeOf(job)
    ensures IsRunTape(CommonOf(job), job.opts.mode, tape)
  {
    TapeIsTape(job);
    forall i | 0 <= i < |tape|
      ensures tape[i].entry.runId == job.opts.runId
      ensures tape[i].writes != [] <==> job.opts.mode.Execute? && tape[i].entry.succeeded
      ensures tape[i].writes != [] ==> CommonOf(job).migration(i, tape[i].writes[0].output)
    {
      WritesMatchEntries(job, i);
    }
  }

  /** A record has one migration at most, as the session theorems about outputs require. */
  lemma MigrationIsFunctional(job: Job)
    requires job.chain != []
    ensures IsFunctional(CommonOf(job))
  {
    forall i: nat, x, y | CommonOf(job).migration(i, x) && CommonOf(job).migration(i, y) ensures x == y {
      MigrationIsUnique(job.fm, job.schemas, job.chain, job.world.stream[i], x, y);
    }
  }

  lemma MigrationIsUnique(fm: Formats, schemas: SchemaRegistry, chain: seq<MigrationEntry>, input: Value, x: Value, y: Value)
    requires chain != [] && MigratesTo(fm, schemas, chain, input, x) && MigratesTo(fm, schemas, chain, input, y)
    ensures x == y
  {
    var p, f :| Parse(fm, SourceSchema(schemas, chain).value.node, input) == Some(p) && FoldsTo(chain, 0, p, f)
                && Parse(fm, DestSchema(schemas, chain).value.node, f) == Some(x);
    var q, g :| Parse(fm, SourceSchema(schemas, chain).value.node, input) == Some(q) && FoldsTo(chain, 0, q, g)
                && Parse(fm, DestSchema(schemas, chain).value.node, g) == Some(y);
    FoldIsUnique(chain, 0, p, f, g);
  }

  /** The schema registered for one end of the transition. */
  ghost predicate IsEndpoint(schemas: SchemaRegistry, schemaId: string, version: string, n: Node) {
    FindSchema(schemas, schemaId, version).Some? && FindSchema(schemas, schemaId, version).value.node == n
  }

  /** A planned empty chain means the diff was not breaking. */
  lemma EmptyPlanIsNotBreaking(schemas: SchemaRegistry, migrations: MigrationRegistry, schemaId: string, from: string, to: string,
                               plan: Plan, b: Node, a: Node)
    requires SchemasWellKeyed(schemas) && Answers(schemas, migrations, schemaId, from, to, Ok(plan)) && plan.chain == []
    requires IsEndpoint(schemas, schemaId, from, b) && IsEndpoint(schemas, schemaId, to, a)
    ensures Within(Walk(b, a, []), Additive)
  {
    var worst :| IsWorst(Walk(b, a, []), worst) && IsPlan(migrations, schemaId, from, to, worst, Ok(plan));
    assert worst != Some(Breaking) by {
      if worst == Some(Breaking) {
        BreakingPlanHasHops(migrations, schemaId, from, to, plan);
      }
    }
  }

  lemma BreakingPlanHasHops(migrations: MigrationRegistry, schemaId: string, from: string, to: string, plan: Plan)
    requires IsPlan(migrations, schemaId, from, to, Some(Breaking), Ok(plan))
    ensures plan.chain != []
  {
    var adj := if schemaId in migrations then migrations[schemaId] else map[];
    var p :| IsOnlySimplePath(adj, from, to, p) && plan == PathPlan(schemaId, from, p);
    assert |plan.chain| == |p|;
  }

  /** After a successful execute run either nothing had to move, because the new schema covers the old one, or every
      write of the run is accepted by the new schema and every stream record was written now or is in the resume cursor.
      The first case needs what the diff needs: fields added safely, refinement names used once. */
  lemma MigrationSafety(job: Job, migrations: MigrationRegistry, skip: set<nat>, n: nat, torn: bool,
                        plan: Result<Plan, PlanError>, r: RunResult, b: Node, a: Node)
    requires SchemasWellKeyed(job.schemas)
    requires Answers(job.schemas, migrations, job.opts.schemaId, job.opts.fromVersion, job.opts.toVersion, plan)
    requires IsRunResult(job, skip, n, torn, plan, r) && r.RunSuccess? && job.opts.mode.Execute?
    requires IsEndpoint(job.schemas, job.opts.schemaId, job.opts.fromVersion, b)
    requires IsEndpoint(job.schemas, job.opts.schemaId, job.opts.toVersion, a)
    ensures job.chain == [] && DistinctRefinements(a) && AddedFieldsSafe(job.fm, b, a) ==> Covers(job.fm, b, a)
    ensures job.chain != [] ==> forall w | w in WrittenBy(job, skip, n, torn) :: Accepts(job.fm, a, w.output)
    ensures job.chain != [] ==>
      forall i | 0 <= i < |job.world.stream| :: i in skip || exists w | w in WrittenBy(job, skip, n, torn) :: w.index == i
  {
    if job.chain == [] {
      EmptyPlanIsNotBreaking(job.schemas, migrations, job.opts.schemaId, job.opts.fromVersion, job.opts.toVersion, plan.value, b, a);
      if DistinctRefinements(a) && AddedFieldsSafe(job.fm, b, a) {
        forall v | Accepts(job.fm, b, v) ensures Accepts(job.fm, a, v) {
          NonBreakingSound(job.fm, b, a, v);
        }
      }
    } else {
      TapeIsTape(job);
      forall w | w in WrittenBy(job, skip, n, torn) ensures Accepts(job.fm, a, w.output) {
        WriteIsAccepted(job, skip, n, w, a);
      }
      forall i | 0 <= i < |job.world.stream| && i !in skip
        ensures exists w | w in WrittenBy(job, skip, n, torn) :: w.index == i
      {
        SuccessfulRunWrites(job, skip, i);
      }
    }
  }

  /** Every write of a walk over a cleared chain is accepted by the schema registered for the target version. */
  lemma WriteIsAccepted(job: Job, skip: set<nat>, n: nat, w: Write, a: Node)
    requires job.chain != [] && IsCleared(job, job.chain) && IsTape(TapeOf(job))
    requires n <= |job.world.stream| && w in WritesUpTo(TapeOf(job), skip, n)
    requires IsEndpoint(job.schemas, job.opts.schemaId, job.opts.toVersion, a)
    ensures Accepts(job.fm, a, w.output)
  {
    WalkWritesAreTraced(TapeOf(job), skip, n, w);
    WritesMatchEntries(job, w.index);
    assert w in TapeOf(job)[w.index].writes;
    ClearedChainFindsSchemas(job.schemas, job.opts.schemaId, job.opts.fromVersion, job.opts.toVersion,
                             job.opts.allowCosmeticDrift, job.chain);
    MigratedIsAccepted(job.fm, job.schemas, job.chain, job.world.stream[w.index], w.output);
  }

  lemma SuccessfulRunWrites(job: Job, skip: set<nat>, i: nat)
    requires job.chain != [] && job.opts.mode.Execute? && IsTape(TapeOf(job)) && i < |job.world.stream| && i !in skip
    requires Failures(EntriesUpTo(TapeOf(job), skip, |job.world.stream|)) == 0
    ensures exists w | w in WritesUpTo(TapeOf(job), skip, |job.world.stream|) :: w.index == i
  {
    var tape := TapeOf(job);
    NoFailures(tape, skip, |tape|);
    WritesMatchEntries(job, i);
    WalkWritesOnce(tape, skip, |tape|, i);
    TimesMeansMember(WritesUpTo(tape, skip, |tape|), i);
  }

  /** After any session of execute runs that ends in success, however it was interrupted, every stream record has a write
      that the new schema accepts. */
  lemma SessionSafety(job: Job, es: seq<Episode>, logs: seq<Logs>, a: Node, i: nat)
    requires job.chain != [] && IsCleared(job, job.chain) && i < |job.world.stream|
    requires IsSession(CommonOf(job), es, logs) && es != [] && LastOf(es).r.RunSuccess? && OnlyExecutes(es)
    requires IsEndpoint(job.schemas, job.opts.schemaId, job.opts.toVersion, a)
    ensures exists w | w in LastOf(logs).writes :: w.index == i && Accepts(job.fm, a, w.output)
  {
    var c := CommonOf(job);
    SuccessCoversTheStream(c, es, logs, i);
    SkippedMeansPersisted(c, es, logs, i);
    var w :| w in LastOf(logs).writes && w.index == i && c.migration(i, w.output);
    ClearedChainFindsSchemas(job.schemas, job.opts.schemaId, job.opts.fromVersion, job.opts.toVersion,
                             job.opts.allowCosmeticDrift, job.chain);
    MigratedIsAccepted(job.fm, job.schemas, job.chain, job.world.stream[i], w.output);
  }

  // ---- A dry run before a resume ----

  lemma DryRunWritesNothing(job: Job, skip: set<nat>, n: nat, torn: bool)
    requires job.chain != [] && !job.opts.mode.Execute? && n <= |job.world.stream| && (torn ==> n < |job.world.stream|)
    ensures WrittenBy(job, skip, n, torn) == []
  {
    NothingWritten(TapeOf(job), skip, if torn then n + 1 else n);
  }

  lemma {:induction false} NothingWritten(tape: seq<Trace>, skip: set<nat>, n: nat)
    requires n <= |tape| && forall t | t in tape :: t.writes == []
    ensures WritesUpTo(tape, skip, n) == []
  {
    if n > 0 {
      NothingWritten(tape, skip, n - 1);
      assert tape[n - 1] in tape;
    }
  }

  /** Resuming after a successful dry run on the same runId: the dry run wrote nothing, yet every index of the stream is
      skipped; the execute run writes nothing, logs nothing, and in a calm world reports success. */
  lemma DryRunBlocksResume(dry: Job, log: seq<AuditEntry>, dryPlan: Result<Plan, PlanError>, dryResult: RunResult,
                           job: Job, n: nat, torn: bool, plan: Result<Plan, PlanError>, r: RunResult)
    requires dry.chain != [] && dry.opts.mode.DryRun? && dryResult.RunSuccess?
    requires IsRunResult(dry, CursorSet(log, dry.opts.runId), |dry.world.stream|, false, dryPlan, dryResult)
    requires job.chain != [] && job.opts.mode.Execute? && job.opts.resume
    requires job.opts.runId == dry.opts.runId && job.world.stream == dry.world.stream
    requires var after := log + LoggedBy(dry, CursorSet(log, dry.opts.runId), |dry.world.stream|);
             IsRunResult(job, CursorSet(after, job.opts.runId), n, torn, plan, r)
    ensures var before := CursorSet(log, dry.opts.runId);
            var skip := CursorSet(log + LoggedBy(dry, before, |dry.world.stream|), dry.opts.runId);
            && WrittenBy(dry, before, |dry.world.stream|, false) == []
            && (forall i: nat | i < |job.world.stream| :: i in skip)
            && WrittenBy(job, skip, n, torn) == [] && LoggedBy(job, skip, n) == []
            && (IsCalm(job.world) ==> r == RunSuccess(Counts(|job.world.stream|, 0, 0)))
  {
    var before := CursorSet(log, dry.opts.runId);
    var skip := CursorSet(log + LoggedBy(dry, before, |dry.world.stream|), dry.opts.runId);
    DryRunWritesNothing(dry, before, |dry.world.stream|, false);
    TapeOfRun(dry, TapeOf(dry));
    forall i: nat | i < |job.world.stream| ensures i in skip {
      SuccessFillsTheCursor(TapeOf(dry), dry.opts, dry.world, before, dryResult, dry.opts.runId, log, i);
    }
    BlockedRun(TapeOf(job), job.opts, job.world, skip, n, torn, r);
  }

  /** There are such runs: in a calm world a dry run succeeds on every stream whose records migrate. */
  lemma DryRunSucceeds(dry: Job, skip: set<nat>, plan: Result<Plan, PlanError>)
    requires dry.chain != [] && dry.opts.mode.DryRun? && MayWalk(dry, plan)
    requires forall i: nat | i < |dry.world.stream| :: OutcomeOf(dry, i).Success?
    ensures exists r: RunResult :: r.RunSuccess? && IsRunResult(dry, skip, |dry.world.stream|, false, plan, r)
  {
    var tape := TapeOf(dry);
    AllSucceed(tape, skip, |tape|);
    assert IsRunResult(dry, skip, |tape|, false, plan, RunSuccess(CountsAt(tape, skip, |tape|)));
  }

  lemma {:induction false} AllSucceed(tape: seq<Trace>, skip: set<nat>, n: nat)
    requires n <= |tape| && forall t | t in tape :: t.entry.succeeded
    ensures Failures(EntriesUpTo(tape, skip, n)) == 0
  {
    if n > 0 {
      AllSucceed(tape, skip, n - 1);
      EntriesStep(tape, skip, n);
      assert tape[n - 1] in tape;
    }
  }
}
