/** The vocabulary of a run: options, outcomes, audit entries, and the world around the runner. */
module RunTypes {
  import opened Values

  datatype Classification =
    | InputValidationFailed | TransformThrew | TransformTimeout | OutputValidationFailed | PersistFailed
    | PreFlightFailed | AdapterInitFailed | Cancelled

  /** The codes a record can fail with; the others are the run's. */
  predicate IsPerRecord(c: Classification) {
    c in {InputValidationFailed, TransformThrew, TransformTimeout, OutputValidationFailed, PersistFailed}
  }

  datatype Mode = ValidateOnly | DryRun | Execute

  datatype OnError = Continue | Stop

  datatype RunOpts = RunOpts(
    runId: string, schemaId: string, fromVersion: string, toVersion: string, mode: Mode,
    allowCosmeticDrift: bool, budget: Option<int>, onError: OnError,
    auditBefore: bool, auditAfter: bool, resume: bool)

  datatype AuditEntry = AuditEntry(
    runId: string, schemaId: string, fromVersion: string, toVersion: string,
    recordIndex: nat, succeeded: bool, classification: Option<Classification>,
    before: Option<Value>, after: Option<Value>)

  /** One persisted record and the stream index it came from. */
  datatype Write = Write(index: nat, output: Value)

  /** How one adapter call goes: it may throw without effect, or the process may die around the effect. */
  datatype IoOutcome = Works | Throws | DiesBefore | DiesAfter

  predicate Lands(o: IoOutcome) {
    o.Works? || o.DiesAfter?
  }

  predicate Dies(o: IoOutcome) {
    o.DiesBefore? || o.DiesAfter?
  }

  /** What the environment does around one record of the stream. */
  datatype Conditions = Conditions(
    streamThrows: bool, aborted: bool, persist: IoOutcome, append: IoOutcome, elapsed: nat -> int)

  predicate CanDie(c: Conditions) {
    Dies(c.persist) || Dies(c.append)
  }

  /** The audit append does not land, or the process dies right after the persist. */
  predicate CanTear(c: Conditions) {
    !Lands(c.append) || c.persist.DiesAfter?
  }

  /** `flush` is absent when the output adapter has none. */
  datatype World = World(
    stream: seq<Value>, at: nat -> Conditions, abortedAtStart: bool, cursorThrows: bool, flush: Option<IoOutcome>)

  datatype Counts = Counts(records: nat, successes: nat, failures: nat)

  /** `Died` is no return value of the source: the process ended inside an adapter call. */
  datatype RunResult =
    | RunSuccess(counts: Counts)
    | RunFailure(classification: Classification, reported: Option<Counts>)
    | Died
}
