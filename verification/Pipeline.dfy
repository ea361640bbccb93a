/** One record through a migration chain: parse, transform hop by hop, parse again. */
module Pipeline {
  import opened Values
  import opened Schema
  import opened Registries
  import opened RunTypes

  /** `chainIndex` is -1 before the first transform and the chain's length after the last. */
  datatype PipelineResult =
    | Success(output: Value)
    | Failure(classification: Classification, chainIndex: int, schemaNotFound: bool)

  /** `trace[i]` is what the i-th transform was given, and `trace[i + 1]` what it returned. */
  ghost predicate IsTrace(chain: seq<MigrationEntry>, trace: seq<Value>) {
    && 0 < |trace| <= |chain| + 1
    && forall i | 0 <= i < |trace| - 1 :: chain[i].transform(trace[i]) == Returned(trace[i + 1])
  }

  predicate OverBudget(budget: Option<int>, elapsed: int) {
    budget.Some? && elapsed > budget.value
  }

  function SourceSchema(schemas: SchemaRegistry, chain: seq<MigrationEntry>): Option<SchemaEntry>
    requires chain != []
  {
    FindSchema(schemas, chain[0].schemaId, chain[0].fromVersion)
  }

  function DestSchema(schemas: SchemaRegistry, chain: seq<MigrationEntry>): Option<SchemaEntry>
    requires chain != []
  {
    FindSchema(schemas, chain[|chain| - 1].schemaId, chain[|chain| - 1].toVersion)
  }

  /** What each outcome says about the transforms that ran: all that precede it, in order, each once, and no other. */
  ghost predicate Explains(fm: Formats, schemas: SchemaRegistry, chain: seq<MigrationEntry>, input: Value,
                           budget: Option<int>, elapsed: nat -> int, trace: seq<Value>, r: PipelineResult)
    requires chain != []
  {
    var source, dest := SourceSchema(schemas, chain), DestSchema(schemas, chain);
    if trace == [] then
      && (source.None? || Parse(fm, source.value.node, input).None?)
      && r == Failure(InputValidationFailed, -1, source.None?)
    else
      && source.Some? && Parse(fm, source.value.node, input) == Some(trace[0])
      && IsTrace(chain, trace)
      && (forall i | 0 <= i < |trace| - 1 :: !OverBudget(budget, elapsed(i)))
      && var done := |trace| - 1;
         if done < |chain| then
           match chain[done].transform(trace[done])
           case Threw => r == Failure(TransformThrew, done, false)
           case Returned(_) => OverBudget(budget, elapsed(done)) && r == Failure(TransformTimeout, done, false)
         else if dest.None? then r == Failure(OutputValidationFailed, |chain|, true)
         else match Parse(fm, dest.value.node, trace[done])
           case None => r == Failure(OutputValidationFailed, |chain|, false)
           case Some(output) => r == Success(output)
  }

  // ---- The outcome as a function of the record and the measured times ----

  datatype HopsResult = Finished(value: Value) | Stopped(classification: Classification, at: nat)

  function RunHops(chain: seq<MigrationEntry>, i: nat, current: Value, budget: Option<int>, elapsed: nat -> int): HopsResult
    requires i <= |chain|
    decreases |chain| - i
  {
    if i == |chain| then Finished(current)
    else match chain[i].transform(current)
      case Threw => Stopped(TransformThrew, i)
      case Returned(next) =>
        if OverBudget(budget, elapsed(i)) then Stopped(TransformTimeout, i)
        else RunHops(chain, i + 1, next, budget, elapsed)
  }

  function RecordOutcome(fm: Formats, schemas: SchemaRegistry, chain: seq<MigrationEntry>, input: Value,
                         budget: Option<int>, elapsed: nat -> int): PipelineResult
    requires chain != []
  {
    var source, dest := SourceSchema(schemas, chain), DestSchema(schemas, chain);
    if source.None? then Failure(InputValidationFailed, -1, true)
    else match Parse(fm, source.value.node, input)
      case None => Failure(InputValidationFailed, -1, false)
      case Some(parsed) =>
        match RunHops(chain, 0, parsed, budget, elapsed)
        case Stopped(c, i) => Failure(c, i, false)
        case Finished(value) =>
          if dest.None? then Failure(OutputValidationFailed, |chain|, true)
          else match Parse(fm, dest.value.node, value)
            case None => Failure(OutputValidationFailed, |chain|, false)
            case Some(output) => Success(output)
  }

  method RunRecordPipeline(fm: Formats, schemas: SchemaRegistry, chain: seq<MigrationEntry>, input: Value,
                           budget: Option<int>, elapsed: nat -> int)
    returns (r: PipelineResult, ghost trace: seq<Value>)
    requires chain != []
    ensures Explains(fm, schemas, chain, input, budget, elapsed, trace, r)
    ensures r == RecordOutcome(fm, schemas, chain, input, budget, elapsed)
  {
    trace := [];
    var sourceEntry := FindSchema(schemas, chain[0].schemaId, chain[0].fromVersion);
    if sourceEntry.None? {
      return Failure(InputValidationFailed, -1, true), [];
    }
    var inputCheck := Parse(fm, sourceEntry.value.node, input);
    if inputCheck.None? {
      return Failure(InputValidationFailed, -1, false), [];
    }
    var current := inputCheck.value;
    trace := [current];
    for i := 0 to |chain|
      invariant |trace| == i + 1 && trace[0] == inputCheck.value && trace[i] == current
      invariant IsTrace(chain, trace)
      invariant RunHops(chain, i, current, budget, elapsed) == RunHops(chain, 0, inputCheck.value, budget, elapsed)
      invariant forall j | 0 <= j < i :: !OverBudget(budget, elapsed(j))
    {
      var next := chain[i].transform(current);
      if next.Threw? {
        return Failure(TransformThrew, i, false), trace;
      }
      if OverBudget(budget, elapsed(i)) {
        return Failure(TransformTimeout, i, false), trace;
      }
      current := next.value;
      trace := trace + [current];
    }
    var lastHop := chain[|chain| - 1];
    var destEntry := FindSchema(schemas, lastHop.schemaId, lastHop.toVersion);
    if destEntry.None? {
      return Failure(OutputValidationFailed, |chain|, true), trace;
    }
    var outputCheck := Parse(fm, destEntry.value.node, current);
    if outputCheck.None? {
      return Failure(OutputValidationFailed, |chain|, false), trace;
    }
    r := Success(outputCheck.value);
  }

  // ---- What a success means ----

  /** The fold of the chain's transforms, with no clock. */
  ghost predicate FoldsTo(chain: seq<MigrationEntry>, i: nat, current: Value, result: Value)
    requires i <= |chain|
    decreases |chain| - i
  {
    if i == |chain| then current == result
    else chain[i].transform(current).Returned? && FoldsTo(chain, i + 1, chain[i].transform(current).value, result)
  }

  lemma {:induction false} FinishedHopsFold(chain: seq<MigrationEntry>, i: nat, current: Value, budget: Option<int>,
                                            elapsed: nat -> int)
    requires i <= |chain| && RunHops(chain, i, current, budget, elapsed).Finished?
    ensures FoldsTo(chain, i, current, RunHops(chain, i, current, budget, elapsed).value)
    decreases |chain| - i
  {
    if i < |chain| {
      FinishedHopsFold(chain, i + 1, chain[i].transform(current).value, budget, elapsed);
    }
  }

  lemma {:induction false} FoldIsUnique(chain: seq<MigrationEntry>, i: nat, current: Value, x: Value, y: Value)
    requires i <= |chain| && FoldsTo(chain, i, current, x) && FoldsTo(chain, i, current, y)
    ensures x == y
    decreases |chain| - i
  {
    if i < |chain| {
      FoldIsUnique(chain, i + 1, chain[i].transform(current).value, x, y);
    }
  }

  /** `output` is the destination parse of the fold of the transforms over the source parse. */
  ghost predicate MigratesTo(fm: Formats, schemas: SchemaRegistry, chain: seq<MigrationEntry>, input: Value, output: Value)
    requires chain != []
  {
    var source, dest := SourceSchema(schemas, chain), DestSchema(schemas, chain);
    && source.Some? && dest.Some?
    && exists parsed, folded ::
         && Parse(fm, source.value.node, input) == Some(parsed)
         && FoldsTo(chain, 0, parsed, folded)
         && Parse(fm, dest.value.node, folded) == Some(output)
  }

  /** The clock can only turn a success into a timeout: whenever a record succeeds, it is with its one migration. */
  lemma SuccessIsTheMigration(fm: Formats, schemas: SchemaRegistry, chain: seq<MigrationEntry>, input: Value,
                              budget: Option<int>, elapsed: nat -> int)
    requires chain != [] && RecordOutcome(fm, schemas, chain, input, budget, elapsed).Success?
    ensures var output := RecordOutcome(fm, schemas, chain, input, budget, elapsed).output;
            && MigratesTo(fm, schemas, chain, input, output)
            && forall other :: MigratesTo(fm, schemas, chain, input, other) ==> other == output
  {
    var parsed := Parse(fm, SourceSchema(schemas, chain).value.node, input).value;
    FinishedHopsFold(chain, 0, parsed, budget, elapsed);
    var folded := RunHops(chain, 0, parsed, budget, elapsed).value;
    forall other | MigratesTo(fm, schemas, chain, input, other)
      ensures other == RecordOutcome(fm, schemas, chain, input, budget, elapsed).output
    {
      var folded' :| FoldsTo(chain, 0, parsed, folded') && Parse(fm, DestSchema(schemas, chain).value.node, folded') == Some(other);
      FoldIsUnique(chain, 0, parsed, folded, folded');
    }
  }

  lemma {:induction false} HopsStopForTheirReasons(chain: seq<MigrationEntry>, i: nat, current: Value, budget: Option<int>,
                                                   elapsed: nat -> int)
    requires i <= |chain| && RunHops(chain, i, current, budget, elapsed).Stopped?
    ensures RunHops(chain, i, current, budget, elapsed).classification in {TransformThrew, TransformTimeout}
    decreases |chain| - i
  {
    if chain[i].transform(current).Returned? && !OverBudget(budget, elapsed(i)) {
      HopsStopForTheirReasons(chain, i + 1, chain[i].transform(current).value, budget, elapsed);
    }
  }

  /** The pipeline only fails with the four per-record codes that are its own. */
  lemma FailuresAreTheirOwn(fm: Formats, schemas: SchemaRegistry, chain: seq<MigrationEntry>, input: Value,
                            budget: Option<int>, elapsed: nat -> int)
    requires chain != [] && RecordOutcome(fm, schemas, chain, input, budget, elapsed).Failure?
    ensures RecordOutcome(fm, schemas, chain, input, budget, elapsed).classification
            in {InputValidationFailed, TransformThrew, TransformTimeout, OutputValidationFailed}
  {
    var source := SourceSchema(schemas, chain);
    if source.Some? && Parse(fm, source.value.node, input).Some? {
      var parsed := Parse(fm, source.value.node, input).value;
      if RunHops(chain, 0, parsed, budget, elapsed).Stopped? {
        HopsStopForTheirReasons(chain, 0, parsed, budget, elapsed);
      }
    }
  }

  /** A migrated record is accepted by the destination schema. */
  lemma MigratedIsAccepted(fm: Formats, schemas: SchemaRegistry, chain: seq<MigrationEntry>, input: Value, output: Value)
    requires chain != [] && MigratesTo(fm, schemas, chain, input, output)
    ensures Accepts(fm, DestSchema(schemas, chain).value.node, output)
  {
    var parsed, folded :| Parse(fm, SourceSchema(schemas, chain).value.node, input) == Some(parsed)
                          && FoldsTo(chain, 0, parsed, folded)
                          && Parse(fm, DestSchema(schemas, chain).value.node, folded) == Some(output);
    OutputIsAccepted(fm, DestSchema(schemas, chain).value.node, folded);
  }
}
