/** What a walk over the record stream leaves and returns, in closed form. */
module Walks {
  import opened Values
  import opened RunTypes

  /** What one record leaves behind when it is walked: its audit entry, and its write if one lands. */
  datatype Trace = Trace(entry: AuditEntry, writes: seq<Write>)

  /** The traces of a stream: entry and write carry the record's index, and only failures are classified. */
  ghost predicate IsTape(tape: seq<Trace>) {
    forall i | 0 <= i < |tape| ::
      && tape[i].entry.recordIndex == i
      && (tape[i].entry.succeeded <==> tape[i].entry.classification.None?)
      && (tape[i].entry.classification.Some? ==> IsPerRecord(tape[i].entry.classification.value))
      && |tape[i].writes| <= 1 && (tape[i].writes != [] ==> tape[i].writes[0].index == i)
  }

  /** The entries of the first `n` records, those in `skip` passed over. */
  function EntriesUpTo(tape: seq<Trace>, skip: set<nat>, n: nat): seq<AuditEntry>
    requires n <= |tape|
  {
    if n == 0 then []
    else EntriesUpTo(tape, skip, n - 1) + (if n - 1 in skip then [] else [tape[n - 1].entry])
  }

  function WritesUpTo(tape: seq<Trace>, skip: set<nat>, n: nat): seq<Write>
    requires n <= |tape|
  {
    if n == 0 then []
    else WritesUpTo(tape, skip, n - 1) + (if n - 1 in skip then [] else tape[n - 1].writes)
  }

  function Successes(entries: seq<AuditEntry>): nat {
    if entries == [] then 0 else Successes(Front(entries)) + if LastOf(entries).succeeded then 1 else 0
  }

  function Failures(entries: seq<AuditEntry>): nat {
    if entries == [] then 0 else Failures(Front(entries)) + if LastOf(entries).succeeded then 0 else 1
  }

  /** The classification of the first failure entry. */
  function FirstFailure(entries: seq<AuditEntry>): Option<Classification> {
    if entries == [] then None
    else if FirstFailure(Front(entries)).Some? then FirstFailure(Front(entries))
    else LastOf(entries).classification
  }

  function CountsAt(tape: seq<Trace>, skip: set<nat>, n: nat): Counts
    requires n <= |tape|
  {
    var entries := EntriesUpTo(tape, skip, n);
    Counts(n, Successes(entries), Failures(entries))
  }

  // ---- What a walk may return ----

  /** `n` records left their entries. A torn walk went on to record `n`, whose write may have landed, but not its entry. */
  ghost predicate IsWalkResult(tape: seq<Trace>, opts: RunOpts, world: World, skip: set<nat>, n: nat, torn: bool, r: RunResult) {
    && n <= |tape| == |world.stream|
    && (torn ==> n < |tape| && n !in skip && CanTear(world.at(n)))
    && StopsAtFailure(opts, EntriesUpTo(tape, skip, n))
    && var counts := CountsAt(tape, skip, n);
       match r
       case Died => MayDie(world, skip)
       case RunSuccess(c) => !torn && n == |tape| && c == counts && c.failures == 0
       case RunFailure(AdapterInitFailed, c) =>
         if torn then world.at(n).append.Throws? && c == Some(counts.(records := n + 1))
         else world.at(n).streamThrows && c == Some(counts)
       case RunFailure(Cancelled, c) =>
         !torn && n < |tape| && world.at(n).aborted && c == Some(counts)
       case RunFailure(classification, c) =>
         && !torn && c == Some(counts)
         && (|| IsAggregate(tape, opts, skip, n, classification)
             || (classification.PersistFailed? && n == |tape| && opts.mode.Execute? && world.flush == Some(Throws)))
  }

  /** Some call for an unskipped record, or the flush, kills the process. */
  ghost predicate MayDie(world: World, skip: set<nat>) {
    || (exists i: nat | i < |world.stream| :: i !in skip && CanDie(world.at(i)))
    || (world.flush.Some? && Dies(world.flush.value))
  }

  /** Under `stop` at most one entry is a failure, and it is the last. */
  predicate StopsAtFailure(opts: RunOpts, entries: seq<AuditEntry>) {
    opts.onError.Stop? ==> Failures(entries) == 0 || (Failures(entries) == 1 && !LastOf(entries).succeeded)
  }

  /** The run failed record by record: it names the first failure, and under `stop` nothing follows it. */
  ghost predicate IsAggregate(tape: seq<Trace>, opts: RunOpts, skip: set<nat>, n: nat, classification: Classification)
    requires n <= |tape|
  {
    var entries := EntriesUpTo(tape, skip, n);
    && FirstFailure(entries) == Some(classification)
    && match opts.onError
       case Continue => n == |tape|
       case Stop => Failures(entries) == 1 && !LastOf(entries).succeeded
  }

  lemma EntriesStep(tape: seq<Trace>, skip: set<nat>, n: nat)
    requires 0 < n <= |tape|
    ensures var entries, before := EntriesUpTo(tape, skip, n), EntriesUpTo(tape, skip, n - 1);
            if n - 1 in skip then entries == before
            else entries != [] && Front(entries) == before && LastOf(entries) == tape[n - 1].entry
  {
  }

  lemma {:induction false} FailuresHaveAFirst(tape: seq<Trace>, skip: set<nat>, n: nat)
    requires IsTape(tape) && n <= |tape|
    ensures var entries := EntriesUpTo(tape, skip, n);
            && (Failures(entries) > 0 <==> FirstFailure(entries).Some?)
            && (FirstFailure(entries).Some? ==> IsPerRecord(FirstFailure(entries).value))
  {
    if n > 0 {
      FailuresHaveAFirst(tape, skip, n - 1);
      EntriesStep(tape, skip, n);
    }
  }

  // ---- The run-local counters ----

  datatype Tally = Tally(counts: Counts, firstFailure: Option<Classification>)

  /** The counters say what the entries written so far say; under `stop` a run goes on only without a failure. */
  ghost predicate IsTally(tape: seq<Trace>, opts: RunOpts, skip: set<nat>, tally: Tally) {
    && tally.counts.records <= |tape|
    && tally.counts == CountsAt(tape, skip, tally.counts.records)
    && tally.firstFailure == FirstFailure(EntriesUpTo(tape, skip, tally.counts.records))
    && (opts.onError.Stop? ==> tally.counts.failures == 0)
  }

  /** `successCount += 1`, or `failureCount += 1` with the first failure kept. */
  function Tallied(tally: Tally, e: AuditEntry): Tally {
    if e.succeeded then tally.(counts := tally.counts.(successes := tally.counts.successes + 1))
    else Tally(tally.counts.(failures := tally.counts.failures + 1),
               if tally.firstFailure.None? then e.classification else tally.firstFailure)
  }

  /** `recordCount += 1`. */
  function Counted(tally: Tally): Tally {
    tally.(counts := tally.counts.(records := tally.counts.records + 1))
  }

  /** Passing over a record keeps the counters right. */
  lemma SkippedStep(tape: seq<Trace>, opts: RunOpts, skip: set<nat>, tally: Tally)
    requires IsTally(tape, opts, skip, tally) && tally.counts.records < |tape| && tally.counts.records in skip
    ensures IsTally(tape, opts, skip, Counted(tally))
  {
    EntriesStep(tape, skip, tally.counts.records + 1);
  }

  /** So does counting an audited record after which the run goes on. */
  lemma AuditedStep(tape: seq<Trace>, opts: RunOpts, skip: set<nat>, tally: Tally)
    requires IsTape(tape) && IsTally(tape, opts, skip, tally) && tally.counts.records < |tape|
    requires var i := tally.counts.records; i !in skip && (tape[i].entry.succeeded || opts.onError.Continue?)
    ensures IsTally(tape, opts, skip, Tallied(Counted(tally), tape[tally.counts.records].entry))
  {
    var i := tally.counts.records;
    EntriesStep(tape, skip, i + 1);
    EntriesCount(EntriesUpTo(tape, skip, i + 1));
  }

  lemma EntriesCount(entries: seq<AuditEntry>)
    requires entries != []
    ensures Successes(entries) == Successes(Front(entries)) + if LastOf(entries).succeeded then 1 else 0
    ensures Failures(entries) == Failures(Front(entries)) + if LastOf(entries).succeeded then 0 else 1
    ensures FirstFailure(entries) ==
            if FirstFailure(Front(entries)).Some? then FirstFailure(Front(entries)) else LastOf(entries).classification
  {
  }

  /** Under `stop` the first failure ends the run. */
  lemma StopStep(tape: seq<Trace>, opts: RunOpts, skip: set<nat>, tally: Tally)
    requires IsTape(tape) && IsTally(tape, opts, skip, tally) && tally.counts.records < |tape|
    requires var i := tally.counts.records; i !in skip && !tape[i].entry.succeeded && opts.onError.Stop?
    ensures var i := tally.counts.records;
            var next := Tallied(Counted(tally), tape[i].entry);
            && next.counts == CountsAt(tape, skip, i + 1)
            && next.firstFailure.Some? && IsPerRecord(next.firstFailure.value)
            && IsAggregate(tape, opts, skip, i + 1, next.firstFailure.value)
  {
    var i := tally.counts.records;
    EntriesStep(tape, skip, i + 1);
    FailuresHaveAFirst(tape, skip, i);
  }

  /** After the stream ended by itself: flush, then success or the aggregate failure. */
  function FinalResult(opts: RunOpts, world: World, tally: Tally): RunResult {
    if opts.mode.Execute? && world.flush == Some(Throws) then RunFailure(PersistFailed, Some(tally.counts))
    else if opts.mode.Execute? && world.flush.Some? && !world.flush.value.Works? then Died
    else if tally.counts.failures > 0 then
      RunFailure(if tally.firstFailure.Some? then tally.firstFailure.value else AdapterInitFailed, Some(tally.counts))
    else RunSuccess(tally.counts)
  }

  lemma FinalResultIsRight(tape: seq<Trace>, opts: RunOpts, world: World, skip: set<nat>, tally: Tally)
    requires IsTape(tape) && IsTally(tape, opts, skip, tally) && tally.counts.records == |tape| == |world.stream|
    ensures IsWalkResult(tape, opts, world, skip, |tape|, false, FinalResult(opts, world, tally))
  {
    FailuresHaveAFirst(tape, skip, |tape|);
  }

  // ---- Accounting ----

  ghost function SkippedBelow(skip: set<nat>, n: nat): set<nat> {
    set i | i in skip && i < n
  }

  /** Every record below `n` was skipped or has one entry; the counters split the entries. */
  lemma {:induction false} RecordsAreAccounted(tape: seq<Trace>, skip: set<nat>, n: nat)
    requires n <= |tape|
    ensures var counts := CountsAt(tape, skip, n);
            && counts.records == counts.successes + counts.failures + |SkippedBelow(skip, n)|
            && counts.successes + counts.failures == |EntriesUpTo(tape, skip, n)|
  {
    if n == 0 {
      assert SkippedBelow(skip, 0) == {};
    } else {
      RecordsAreAccounted(tape, skip, n - 1);
      EntriesStep(tape, skip, n);
      assert SkippedBelow(skip, n) == SkippedBelow(skip, n - 1) + if n - 1 in skip then {n - 1} else {};
    }
  }

  /** The counts a walk reports: records are successes, failures and skipped, and one more if an append threw. */
  lemma ReportedCountsAddUp(tape: seq<Trace>, opts: RunOpts, world: World, skip: set<nat>, n: nat, torn: bool, r: RunResult)
    requires IsWalkResult(tape, opts, world, skip, n, torn, r) && !r.Died?
    ensures r.RunFailure? ==> r.reported.Some?
    ensures var c := if r.RunSuccess? then r.counts else r.reported.value;
            && c.records == c.successes + c.failures + |SkippedBelow(skip, n)| + (if torn then 1 else 0)
            && c.successes + c.failures == |EntriesUpTo(tape, skip, n)|
    ensures torn ==> r.RunFailure? && r.classification.AdapterInitFailed?
  {
    RecordsAreAccounted(tape, skip, n);
  }

  /** `e` is the entry of an unskipped record below `n`. */
  predicate IsEntryBelow(tape: seq<Trace>, skip: set<nat>, n: nat, e: AuditEntry) {
    e.recordIndex < n && e.recordIndex < |tape| && e.recordIndex !in skip && tape[e.recordIndex].entry == e
  }

  /** The walk leaves the entries of the unskipped records, and no other. */
  lemma {:induction false} EntriesAreTheUnskipped(tape: seq<Trace>, skip: set<nat>, n: nat, e: AuditEntry)
    requires IsTape(tape) && n <= |tape|
    ensures e in EntriesUpTo(tape, skip, n) <==> IsEntryBelow(tape, skip, n, e)
  {
    if n > 0 {
      EntriesAreTheUnskipped(tape, skip, n - 1, e);
      assert tape[n - 1].entry.recordIndex == n - 1;
    }
  }

  /** Entries come in stream order. */
  lemma {:induction false} EntriesAreInOrder(tape: seq<Trace>, skip: set<nat>, n: nat, a: nat, b: nat)
    requires IsTape(tape) && n <= |tape| && a < b < |EntriesUpTo(tape, skip, n)|
    ensures EntriesUpTo(tape, skip, n)[a].recordIndex < EntriesUpTo(tape, skip, n)[b].recordIndex
  {
    EntriesStep(tape, skip, n);
    var entries, before := EntriesUpTo(tape, skip, n), EntriesUpTo(tape, skip, n - 1);
    if b < |before| {
      EntriesAreInOrder(tape, skip, n - 1, a, b);
      assert entries[a] == before[a] && entries[b] == before[b];
    } else {
      assert entries[a] == before[a] && entries[a] in before;
      EntriesAreTheUnskipped(tape, skip, n - 1, entries[a]);
    }
  }

  lemma {:induction false} NoFailures(tape: seq<Trace>, skip: set<nat>, n: nat)
    requires n <= |tape| && Failures(EntriesUpTo(tape, skip, n)) == 0
    ensures forall j: nat | j < n && j !in skip :: tape[j].entry.succeeded
  {
    if n > 0 {
      EntriesStep(tape, skip, n);
      NoFailures(tape, skip, n - 1);
    }
  }

  lemma FirstFailureStep(tape: seq<Trace>, skip: set<nat>, n: nat)
    requires IsTape(tape) && n <= |tape| && FirstFailure(EntriesUpTo(tape, skip, n)).Some?
    ensures n > 0
    ensures var first, before := FirstFailure(EntriesUpTo(tape, skip, n)), FirstFailure(EntriesUpTo(tape, skip, n - 1));
            if before.Some? then first == before
            else n - 1 !in skip && !tape[n - 1].entry.succeeded && first == tape[n - 1].entry.classification
  {
    EntriesStep(tape, skip, n);
  }

  /** The classification a failed run reports is that of its lowest failed index. */
  lemma {:induction false} FirstFailureIsLowest(tape: seq<Trace>, skip: set<nat>, n: nat) returns (i: nat)
    requires IsTape(tape) && n <= |tape| && FirstFailure(EntriesUpTo(tape, skip, n)).Some?
    ensures i < n && i !in skip && !tape[i].entry.succeeded
    ensures tape[i].entry.classification == FirstFailure(EntriesUpTo(tape, skip, n))
    ensures forall j: nat | j < i && j !in skip :: tape[j].entry.succeeded
  {
    FirstFailureStep(tape, skip, n);
    if FirstFailure(EntriesUpTo(tape, skip, n - 1)).Some? {
      i := FirstFailureIsLowest(tape, skip, n - 1);
    } else {
      i := n - 1;
      FailuresHaveAFirst(tape, skip, i);
      NoFailures(tape, skip, i);
    }
  }
}
