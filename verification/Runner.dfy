/** The migration runner: pre-flight, then a walk over the record stream that persists and audits. */
module Runner {
  import opened Values
  import opened Schema
  import opened Registries
  import opened Planner
  import opened PreFlight
  import opened RunTypes
  import opened Pipeline
  import opened Adapters
  import opened Walks

  /** Everything that decides what a walk does. */
  datatype Job = Job(fm: Formats, schemas: SchemaRegistry, chain: seq<MigrationEntry>, opts: RunOpts, world: World)

  // ---- What one record leaves behind ----

  function OutcomeOf(job: Job, i: nat): PipelineResult
    requires job.chain != [] && i < |job.world.stream|
  {
    RecordOutcome(job.fm, job.schemas, job.chain, job.world.stream[i], job.opts.budget, job.world.at(i).elapsed)
  }

  function Retained(flag: bool, v: Value): Option<Value> {
    if flag && v != Undefined then Some(v) else None
  }

  /** A pipeline failure, a persist that does not land, or nothing. */
  function FailureOf(job: Job, i: nat): Option<Classification>
    requires job.chain != [] && i < |job.world.stream|
  {
    match OutcomeOf(job, i)
    case Failure(c, _, _) => Some(c)
    case Success(_) => if job.opts.mode.Execute? && !Lands(job.world.at(i).persist) then Some(PersistFailed) else None
  }

  function EntryOf(job: Job, i: nat): AuditEntry
    requires job.chain != [] && i < |job.world.stream|
  {
    var r, o := OutcomeOf(job, i), job.opts;
    AuditEntry(o.runId, o.schemaId, o.fromVersion, o.toVersion, i, FailureOf(job, i).None?, FailureOf(job, i),
      Retained(o.auditBefore, job.world.stream[i]),
      if r.Success? then Retained(o.auditAfter, r.output) else None)
  }

  /** The record migrates, the mode persists, and the write lands. */
  function WritesOf(job: Job, i: nat): seq<Write>
    requires job.chain != [] && i < |job.world.stream|
  {
    var r := OutcomeOf(job, i);
    if r.Success? && job.opts.mode.Execute? && Lands(job.world.at(i).persist) then [Write(i, r.output)] else []
  }

  /** What each record of the stream would leave. */
  function TapeOf(job: Job): seq<Trace>
    requires job.chain != []
  {
    seq(|job.world.stream|, i requires 0 <= i < |job.world.stream| => Trace(EntryOf(job, i), WritesOf(job, i)))
  }

  lemma TapeIsTape(job: Job)
    requires job.chain != []
    ensures IsTape(TapeOf(job))
  {
    forall i | 0 <= i < |job.world.stream| ensures OutcomeOf(job, i).Failure? ==> IsPerRecord(OutcomeOf(job, i).classification) {
      if OutcomeOf(job, i).Failure? {
        FailuresAreTheirOwn(job.fm, job.schemas, job.chain, job.world.stream[i], job.opts.budget, job.world.at(i).elapsed);
      }
    }
  }

  /** In execute mode an entry is a success exactly when its write landed, and the write is the record's one migration. */
  lemma WritesMatchEntries(job: Job, i: nat)
    requires job.chain != [] && i < |job.world.stream|
    ensures TapeOf(job)[i].entry.runId == job.opts.runId
    ensures job.opts.mode.Execute? ==> (TapeOf(job)[i].entry.succeeded <==> TapeOf(job)[i].writes != [])
    ensures forall w | w in TapeOf(job)[i].writes ::
      && w.index == i && MigratesTo(job.fm, job.schemas, job.chain, job.world.stream[i], w.output)
      && forall o :: MigratesTo(job.fm, job.schemas, job.chain, job.world.stream[i], o) ==> o == w.output
  {
    if OutcomeOf(job, i).Success? {
      SuccessIsTheMigration(job.fm, job.schemas, job.chain, job.world.stream[i], job.opts.budget, job.world.at(i).elapsed);
    }
  }

  // ---- The record walk ----

  datatype RecordStatus = Audited | AppendThrew | DiedHere(torn: bool)

  datatype Exit = Next | StreamEnded | Return(result: RunResult)

  /** What one turn of the loop returns: a next tally, the end of the stream, or the result of the walk. */
  ghost predicate IsTurn(tape: seq<Trace>, opts: RunOpts, world: World, skip: set<nat>,
                         tally: Tally, tally': Tally, exit: Exit, n: nat, torn: bool) {
    var i := tally.counts.records;
    && i <= n <= i + 1 && n <= |tape| && tally'.counts.records <= |tape|
    && (torn ==> n == i < |tape| && i !in skip)
    && match exit
       case Next => !torn && tally'.counts.records == n == i + 1 && IsTally(tape, opts, skip, tally')
       case StreamEnded => !torn && tally' == tally && n == i == |tape|
       case Return(r) => IsWalkResult(tape, opts, world, skip, n, torn, r)
  }

  /** Where the loop stands between two turns. */
  ghost predicate IsAt(tape: seq<Trace>, opts: RunOpts, world: World, skip: set<nat>, tally: Tally, exit: Exit, n: nat, torn: bool) {
    && n <= |tape|
    && match exit
       case Next => !torn && n == tally.counts.records && IsTally(tape, opts, skip, tally)
       case StreamEnded => !torn && n == tally.counts.records == |tape| && IsTally(tape, opts, skip, tally)
       case Return(r) => IsWalkResult(tape, opts, world, skip, n, torn, r)
  }

  lemma TurnMoves(tape: seq<Trace>, opts: RunOpts, world: World, skip: set<nat>, tally: Tally, tally': Tally,
                  exit: Exit, n: nat, torn: bool)
    requires IsTally(tape, opts, skip, tally) && IsTurn(tape, opts, world, skip, tally, tally', exit, n, torn)
    ensures IsAt(tape, opts, world, skip, tally', exit, n, torn)
    ensures exit.Next? ==> n == tally.counts.records + 1
  {
  }

  /** A walk starts with nothing counted, logged or written. */
  lemma WalkStarts(tape: seq<Trace>, opts: RunOpts, world: World, skip: set<nat>)
    ensures IsAt(tape, opts, world, skip, Tally(Counts(0, 0, 0), None), Next, 0, false)
    ensures EntriesUpTo(tape, skip, 0) == [] && WritesUpTo(tape, skip, 0) == []
  {
  }

  /** A turn that ends the walk before its record is audited, or right after. */
  lemma BrokenTurn(tape: seq<Trace>, opts: RunOpts, world: World, skip: set<nat>, tally: Tally, n: nat, torn: bool)
    requires |tape| == |world.stream| && IsTally(tape, opts, skip, tally)
    requires var i := tally.counts.records; i < |tape| && i !in skip && i <= n <= i + 1
    requires torn ==> n == tally.counts.records && CanTear(world.at(n))
    ensures var counted := Counted(tally);
            && (torn && world.at(n).append.Throws? ==>
                  IsTurn(tape, opts, world, skip, tally, counted, Return(RunFailure(AdapterInitFailed, Some(counted.counts))), n, torn))
            && (CanDie(world.at(tally.counts.records)) ==> IsTurn(tape, opts, world, skip, tally, counted, Return(Died), n, torn))
  {
    EntriesStep(tape, skip, tally.counts.records + 1);
  }

  /** A turn whose record is audited. */
  lemma AuditedTurn(tape: seq<Trace>, opts: RunOpts, world: World, skip: set<nat>, tally: Tally)
    requires IsTape(tape) && |tape| == |world.stream| && IsTally(tape, opts, skip, tally)
    requires tally.counts.records < |tape| && tally.counts.records !in skip
    ensures var e, n := tape[tally.counts.records].entry, tally.counts.records + 1;
            var next := Tallied(Counted(tally), e);
            if !e.succeeded && opts.onError == Stop then
              && next.firstFailure.Some?
              && IsTurn(tape, opts, world, skip, tally, next, Return(RunFailure(next.firstFailure.value, Some(next.counts))), n, false)
            else IsTurn(tape, opts, world, skip, tally, next, Next, n, false)
  {
    var e := tape[tally.counts.records].entry;
    EntriesStep(tape, skip, tally.counts.records + 1);
    if !e.succeeded && opts.onError == Stop {
      StopStep(tape, opts, skip, tally);
    } else {
      AuditedStep(tape, opts, skip, tally);
    }
  }

  /** The turns that handle no record: the stream throws, ends, is aborted, or the record is skipped. */
  lemma IdleTurn(tape: seq<Trace>, opts: RunOpts, world: World, skip: set<nat>, tally: Tally)
    requires IsTape(tape) && |tape| == |world.stream| && IsTally(tape, opts, skip, tally)
    ensures var i, c := tally.counts.records, Some(tally.counts);
            && (world.at(i).streamThrows ==>
                  IsTurn(tape, opts, world, skip, tally, tally, Return(RunFailure(AdapterInitFailed, c)), i, false))
            && (i == |tape| ==> IsTurn(tape, opts, world, skip, tally, tally, StreamEnded, i, false))
            && (i < |tape| && world.at(i).aborted ==>
                  IsTurn(tape, opts, world, skip, tally, tally, Return(RunFailure(Cancelled, c)), i, false))
            && (i < |tape| && i in skip ==> IsTurn(tape, opts, world, skip, tally, Counted(tally), Next, i + 1, false))
  {
    if tally.counts.records < |tape| && tally.counts.records in skip {
      SkippedStep(tape, opts, skip, tally);
    }
  }

  ghost function TurnEntries(tape: seq<Trace>, skip: set<nat>, i: nat, n: nat): seq<AuditEntry> {
    if n <= i || i in skip || i >= |tape| then [] else [tape[i].entry]
  }

  ghost function TurnWrites(tape: seq<Trace>, skip: set<nat>, i: nat, n: nat, torn: bool): seq<Write> {
    if (n <= i && !torn) || i in skip || i >= |tape| then [] else tape[i].writes
  }

  /** The closed forms grow by what one turn appends, behind whatever was logged before. */
  lemma TurnLogs(tape: seq<Trace>, skip: set<nat>, i: nat, n: nat, log: seq<AuditEntry>)
    requires i <= n <= i + 1 && n <= |tape|
    ensures log + EntriesUpTo(tape, skip, i) + TurnEntries(tape, skip, i, n) == log + EntriesUpTo(tape, skip, n)
  {
    assert EntriesUpTo(tape, skip, i) + TurnEntries(tape, skip, i, n) == EntriesUpTo(tape, skip, n);
  }

  lemma TurnPersists(tape: seq<Trace>, skip: set<nat>, i: nat, n: nat, torn: bool, writes: seq<Write>)
    requires i <= n <= i + 1 && n <= |tape|
    requires torn ==> n == i < |tape| && i !in skip
    ensures writes + WritesUpTo(tape, skip, i) + TurnWrites(tape, skip, i, n, torn)
         == writes + WritesUpTo(tape, skip, if torn then n + 1 else n)
  {
    assert WritesUpTo(tape, skip, i) + TurnWrites(tape, skip, i, n, torn) == WritesUpTo(tape, skip, if torn then n + 1 else n);
  }

  // ---- A whole run ----

  ghost predicate IsCleared(job: Job, chain: seq<MigrationEntry>) {
    IsClearedChain(job.schemas, job.opts.schemaId, job.opts.fromVersion, job.opts.toVersion,
                   job.opts.allowCosmeticDrift, chain)
  }

  /** The results that come without a walk. */
  ghost predicate IsUnwalkedResult(job: Job, plan: Result<Plan, PlanError>, r: RunResult) {
    match r
    case RunSuccess(c) => c == Counts(0, 0, 0) && plan.Ok? && (plan.value.chain == [] || job.opts.mode.ValidateOnly?)
    case RunFailure(PreFlightFailed, None) => plan.Err? || (plan.value.chain != [] && !IsCleared(job, plan.value.chain))
    case RunFailure(AdapterInitFailed, None) => job.opts.resume && job.world.cursorThrows
    case RunFailure(Cancelled, c) => job.world.abortedAtStart && c == Some(Counts(0, 0, 0))
    case _ => false
  }

  /** A walk needs a cleared chain, a walking mode, a readable cursor and no early abort. */
  ghost predicate MayWalk(job: Job, plan: Result<Plan, PlanError>) {
    && plan.Ok? && job.chain == plan.value.chain && IsCleared(job, job.chain)
    && !job.opts.mode.ValidateOnly? && !job.world.abortedAtStart && (job.opts.resume ==> !job.world.cursorThrows)
  }

  /** A run without a walk has a job without a chain, and leaves no entry and no write. */
  ghost predicate IsRunResult(job: Job, skip: set<nat>, n: nat, torn: bool, plan: Result<Plan, PlanError>, r: RunResult) {
    if job.chain == [] then n == 0 && !torn && IsUnwalkedResult(job, plan, r)
    else MayWalk(job, plan) && IsWalkResult(TapeOf(job), job.opts, job.world, skip, n, torn, r)
  }

  ghost function LoggedBy(job: Job, skip: set<nat>, n: nat): seq<AuditEntry>
    requires job.chain != [] ==> n <= |job.world.stream|
  {
    if job.chain == [] then [] else EntriesUpTo(TapeOf(job), skip, n)
  }

  ghost function WrittenBy(job: Job, skip: set<nat>, n: nat, torn: bool): seq<Write>
    requires job.chain != [] ==> n <= |job.world.stream| && (torn ==> n < |job.world.stream|)
  {
    if job.chain == [] then [] else WritesUpTo(TapeOf(job), skip, if torn then n + 1 else n)
  }

  lemma UnwalkedRun(job: Job, skip: set<nat>, plan: Result<Plan, PlanError>, r: RunResult, log: seq<AuditEntry>, writes: seq<Write>)
    requires job.chain == [] && IsUnwalkedResult(job, plan, r)
    ensures IsRunResult(job, skip, 0, false, plan, r)
    ensures log + LoggedBy(job, skip, 0) == log && writes + WrittenBy(job, skip, 0, false) == writes
  {
  }

  lemma WalkedRun(job: Job, skip: set<nat>, n: nat, torn: bool, plan: Result<Plan, PlanError>, r: RunResult)
    requires job.chain != [] && MayWalk(job, plan) && IsWalkResult(TapeOf(job), job.opts, job.world, skip, n, torn, r)
    ensures IsRunResult(job, skip, n, torn, plan, r)
    ensures LoggedBy(job, skip, n) == EntriesUpTo(TapeOf(job), skip, n)
    ensures WrittenBy(job, skip, n, torn) == WritesUpTo(TapeOf(job), skip, if torn then n + 1 else n)
  {
  }

  ghost function CursorSet(store: seq<AuditEntry>, runId: string): set<nat> {
    set i | i in CursorOf(store, runId)
  }

  class MigrationRunner {
    const fm: Formats
    const schemas: SchemaRegistry
    const migrations: MigrationRegistry
    const audit: AuditLog
    const sink: OutputSink

    constructor (fm: Formats, schemas: SchemaRegistry, migrations: MigrationRegistry, audit: AuditLog, sink: OutputSink)
      ensures this.fm == fm && this.schemas == schemas && this.migrations == migrations
      ensures this.audit == audit && this.sink == sink
    {
      this.fm, this.schemas, this.migrations, this.audit, this.sink := fm, schemas, migrations, audit, sink;
    }

    /** One record that is not skipped: pipeline, persist, audit. */
    method HandleRecord(job: Job, i: nat) returns (status: RecordStatus, e: AuditEntry)
      requires job.chain != [] && i < |job.world.stream|
      modifies audit, sink
      ensures status.Audited? ==> e == EntryOf(job, i) && Lands(job.world.at(i).append)
      ensures status.Audited? ==> audit.store == old(audit.store) + [e] && sink.writes == old(sink.writes) + WritesOf(job, i)
      ensures status.AppendThrew? ==> job.world.at(i).append.Throws?
      ensures status.AppendThrew? ==> audit.store == old(audit.store) && sink.writes == old(sink.writes) + WritesOf(job, i)
      ensures status.DiedHere? ==> CanDie(job.world.at(i))
      ensures status.DiedHere? && !status.torn ==>
        || (audit.store == old(audit.store) && sink.writes == old(sink.writes))
        || (audit.store == old(audit.store) + [EntryOf(job, i)] && sink.writes == old(sink.writes) + WritesOf(job, i))
      ensures status.DiedHere? && status.torn ==> CanTear(job.world.at(i))
      ensures status.DiedHere? && status.torn ==>
        audit.store == old(audit.store) && sink.writes == old(sink.writes) + WritesOf(job, i)
    {
      var conditions, opts := job.world.at(i), job.opts;
      var input := job.world.stream[i];
      var r, _ := RunRecordPipeline(job.fm, job.schemas, job.chain, input, opts.budget, conditions.elapsed);
      e := AuditEntry(opts.runId, opts.schemaId, opts.fromVersion, opts.toVersion, i, true, None,
                      Retained(opts.auditBefore, input), None);
      if r.Success? {
        e := e.(after := Retained(opts.auditAfter, r.output));
        if opts.mode == Execute {
          sink.Persist(Write(i, r.output), conditions.persist);
          match conditions.persist {
            case Works =>
            case Throws => e := e.(succeeded := false, classification := Some(PersistFailed));
            case DiesBefore => return DiedHere(false), e;
            case DiesAfter => return DiedHere(true), e;
          }
        }
      } else {
        e := e.(succeeded := false, classification := Some(r.classification));
      }
      audit.Append(e, conditions.append);
      match conditions.append {
        case Works => status := Audited;
        case Throws => status := AppendThrew;
        case DiesBefore => status := DiedHere(true);
        case DiesAfter => status := DiedHere(false);
      }
    }

    /** A record that is not skipped: handle it, then count it, or leave the loop. */
    method Settle(job: Job, ghost tape: seq<Trace>, ghost skip: set<nat>, tally: Tally)
      returns (tally': Tally, exit: Exit, ghost n: nat, ghost torn: bool)
      requires job.chain != [] && tape == TapeOf(job) && IsTape(tape) && IsTally(tape, job.opts, skip, tally)
      requires tally.counts.records < |tape| && tally.counts.records !in skip
      modifies audit, sink
      ensures IsTurn(tape, job.opts, job.world, skip, tally, tally', exit, n, torn)
      ensures audit.store == old(audit.store) + TurnEntries(tape, skip, tally.counts.records, n)
      ensures sink.writes == old(sink.writes) + TurnWrites(tape, skip, tally.counts.records, n, torn)
    {
      var i := tally.counts.records;
      tally', exit, n, torn := Counted(tally), Next, i, false;
      ghost var audited := audit.store;
      var status, e := HandleRecord(job, i);
      match status {
        case AppendThrew =>
          torn := true;
          exit := Return(RunFailure(AdapterInitFailed, Some(tally'.counts)));
        case DiedHere(t) =>
          torn := t;
          n := if audit.store == audited then i else i + 1;
          exit := Return(Died);
        case Audited =>
          n := i + 1;
          tally' := Tallied(tally', e);
          if !e.succeeded && job.opts.onError == Stop {
            exit := Return(RunFailure(tally'.firstFailure.value, Some(tally'.counts)));
          }
      }
      if status.Audited? {
        AuditedTurn(tape, job.opts, job.world, skip, tally);
      } else {
        BrokenTurn(tape, job.opts, job.world, skip, tally, n, torn);
      }
    }

    /** One turn of the loop, behind what was logged and written before the walk. */
    method WalkOne(job: Job, ghost tape: seq<Trace>, skip: set<nat>, tally: Tally,
                   ghost log: seq<AuditEntry>, ghost writes: seq<Write>)
      returns (tally': Tally, exit: Exit, ghost n: nat, ghost torn: bool)
      requires job.chain != [] && tape == TapeOf(job) && IsTape(tape) && IsTally(tape, job.opts, skip, tally)
      requires audit.store == log + EntriesUpTo(tape, skip, tally.counts.records)
      requires sink.writes == writes + WritesUpTo(tape, skip, tally.counts.records)
      modifies audit, sink
      ensures IsTurn(tape, job.opts, job.world, skip, tally, tally', exit, n, torn)
      ensures audit.store == log + EntriesUpTo(tape, skip, n)
      ensures sink.writes == writes + WritesUpTo(tape, skip, if torn then n + 1 else n)
    {
      var world, i := job.world, tally.counts.records;
      tally', exit, n, torn := tally, Next, i, false;
      IdleTurn(tape, job.opts, world, skip, tally);
      if world.at(i).streamThrows {
        exit := Return(RunFailure(AdapterInitFailed, Some(tally.counts)));
      } else if i == |world.stream| {
        exit := StreamEnded;
      } else if world.at(i).aborted {
        exit := Return(RunFailure(Cancelled, Some(tally.counts)));
      } else if i in skip {
        tally', n := Counted(tally), i + 1;
      } else {
        tally', exit, n, torn := Settle(job, tape, skip, tally);
      }
      TurnLogs(tape, skip, i, n, log);
      TurnPersists(tape, skip, i, n, torn, writes);
    }

    /** The record walk from the first record on; `n` and `torn` say how far it got. */
    method WalkRecords(job: Job, ghost tape: seq<Trace>, skip: set<nat>) returns (r: RunResult, ghost n: nat, ghost torn: bool)
      requires job.chain != [] && tape == TapeOf(job) && IsTape(tape)
      modifies audit, sink
      ensures IsWalkResult(tape, job.opts, job.world, skip, n, torn, r)
      ensures audit.store == old(audit.store) + EntriesUpTo(tape, skip, n)
      ensures sink.writes == old(sink.writes) + WritesUpTo(tape, skip, if torn then n + 1 else n)
    {
      var tally, exit := Tally(Counts(0, 0, 0), None), Next;
      n, torn := 0, false;
      ghost var log, writes := audit.store, sink.writes;
      WalkStarts(tape, job.opts, job.world, skip);
      while exit.Next?
        invariant IsAt(tape, job.opts, job.world, skip, tally, exit, n, torn)
        invariant audit.store == log + EntriesUpTo(tape, skip, n)
        invariant sink.writes == writes + WritesUpTo(tape, skip, if torn then n + 1 else n)
        decreases if exit.Next? then |tape| + 1 - n else 0
      {
        ghost var before := tally;
        tally, exit, n, torn := WalkOne(job, tape, skip, tally, log, writes);
        TurnMoves(tape, job.opts, job.world, skip, before, tally, exit, n, torn);
      }
      if exit.Return? {
        return exit.result, n, torn;
      }
      r := FinalResult(job.opts, job.world, tally);
      FinalResultIsRight(tape, job.opts, job.world, skip, tally);
    }

    /** Steps 1 to 3: a result that needs no walk, or the cleared chain. */
    method Prepare(opts: RunOpts, ghost world: World)
      returns (stop: Option<RunResult>, chain: seq<MigrationEntry>, ghost plan: Result<Plan, PlanError>)
      requires SchemasWellKeyed(schemas) && KeysAgree(migrations)
      ensures Answers(schemas, migrations, opts.schemaId, opts.fromVersion, opts.toVersion, plan)
      ensures stop.Some? ==> IsUnwalkedResult(Job(fm, schemas, [], opts, world), plan, stop.value)
      ensures stop.None? ==> plan.Ok? && chain == plan.value.chain != [] && !opts.mode.ValidateOnly?
      ensures stop.None? ==> IsCleared(Job(fm, schemas, chain, opts, world), chain)
    {
      var pre;
      chain := [];
      pre, plan := RunPreFlight(schemas, migrations, opts.schemaId, opts.fromVersion, opts.toVersion, opts.allowCosmeticDrift);
      if pre.Err? {
        stop := Some(RunFailure(PreFlightFailed, None));
        return;
      }
      if |pre.value.chain| == 0 || opts.mode == ValidateOnly {
        stop := Some(RunSuccess(Counts(0, 0, 0)));
        return;
      }
      stop, chain := None, pre.value.chain;
    }

    /** Steps 4 and 5: the resume cursor, then the abort signal. */
    method ReadSkipSet(opts: RunOpts, world: World) returns (stop: Option<RunResult>, skip: set<nat>)
      ensures stop == if opts.resume && world.cursorThrows then Some(RunFailure(AdapterInitFailed, None))
                      else if world.abortedAtStart then Some(RunFailure(Cancelled, Some(Counts(0, 0, 0))))
                      else None
      ensures stop.None? ==> skip == if opts.resume then CursorSet(audit.store, opts.runId) else {}
    {
      skip := {};
      if opts.resume {
        if world.cursorThrows {
          return Some(RunFailure(AdapterInitFailed, None)), skip;
        }
        var cursor := audit.Cursor(opts.runId);
        skip := set i | i in cursor;
      }
      if world.abortedAtStart {
        return Some(RunFailure(Cancelled, Some(Counts(0, 0, 0)))), skip;
      }
      stop := None;
    }

    /** A whole run. `n` and `torn` describe its record walk, if it has one. */
    method Run(opts: RunOpts, world: World)
      returns (r: RunResult, ghost job: Job, ghost skip: set<nat>, ghost n: nat, ghost torn: bool,
               ghost plan: Result<Plan, PlanError>)
      requires SchemasWellKeyed(schemas) && KeysAgree(migrations)
      modifies audit, sink
      ensures Answers(schemas, migrations, opts.schemaId, opts.fromVersion, opts.toVersion, plan)
      ensures job == Job(fm, schemas, job.chain, opts, world)
      ensures skip == if opts.resume then CursorSet(old(audit.store), opts.runId) else {}
      ensures IsRunResult(job, skip, n, torn, plan, r)
      ensures audit.store == old(audit.store) + LoggedBy(job, skip, n)
      ensures sink.writes == old(sink.writes) + WrittenBy(job, skip, n, torn)
    {
      skip := if opts.resume then CursorSet(audit.store, opts.runId) else {};
      n, torn := 0, false;
      job := Job(fm, schemas, [], opts, world);
      var stop, chain;
      stop, chain, plan := Prepare(opts, world);
      if stop.Some? {
        r := stop.value;
        UnwalkedRun(job, skip, plan, r, audit.store, sink.writes);
        return;
      }
      var skipSet;
      stop, skipSet := ReadSkipSet(opts, world);
      if stop.Some? {
        r := stop.value;
        UnwalkedRun(job, skip, plan, r, audit.store, sink.writes);
        return;
      }
      job := Job(fm, schemas, chain, opts, world);
      TapeIsTape(job);
      r, n, torn := WalkRecords(Job(fm, schemas, chain, opts, world), TapeOf(job), skipSet);
      WalkedRun(job, skip, n, torn, plan, r);
    }
  }
}
