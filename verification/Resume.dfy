/** Whole histories: any number of runs on one runId, dry or not, interrupted anywhere, resumed from the audit log. */
module Resume {
  import opened Values
  import opened RunTypes
  import opened Adapters
  import opened Walks

  datatype Logs = Logs(audit: seq<AuditEntry>, writes: seq<Write>)

  /** One run's walk, as the runner reports it. */
  datatype Episode = Episode(tape: seq<Trace>, opts: RunOpts, world: World, skip: set<nat>, n: nat, torn: bool, r: RunResult)

  /** What all runs of a session share: the runId, the stream length, and which output is a record's migration. */
  datatype Common = Common(runId: string, size: nat, migration: (nat, Value) -> bool)

  /** A record migrates to one output at most. */
  ghost predicate IsFunctional(c: Common) {
    forall i, x, y :: c.migration(i, x) && c.migration(i, y) ==> x == y
  }

  /** The tape of a run on the shared stream. In an execute run an entry is a success exactly when its write landed; a dry
      run writes nothing. */
  ghost predicate IsRunTape(c: Common, mode: Mode, tape: seq<Trace>) {
    && IsTape(tape) && |tape| == c.size
    && forall i | 0 <= i < |tape| ::
         && tape[i].entry.runId == c.runId
         && (tape[i].writes != [] <==> mode.Execute? && tape[i].entry.succeeded)
         && (tape[i].writes != [] ==> c.migration(i, tape[i].writes[0].output))
  }

  function Reached(e: Episode): nat {
    if e.torn then e.n + 1 else e.n
  }

  /** A run that skips what the log says succeeded, and leaves what its walk left. */
  ghost predicate IsEpisode(c: Common, before: Logs, e: Episode, after: Logs) {
    && IsRunTape(c, e.opts.mode, e.tape)
    && e.skip == (set i | i in CursorOf(before.audit, c.runId))
    && IsWalkResult(e.tape, e.opts, e.world, e.skip, e.n, e.torn, e.r)
    && after.audit == before.audit + EntriesUpTo(e.tape, e.skip, e.n)
    && after.writes == before.writes + WritesUpTo(e.tape, e.skip, Reached(e))
  }

  /** From logs without the runId, run after run; the last element is the current state. */
  ghost predicate IsSession(c: Common, es: seq<Episode>, logs: seq<Logs>) {
    && |logs| == |es| + 1
    && CursorOf(logs[0].audit, c.runId) == [] && logs[0].writes == []
    && forall k | 0 <= k < |es| :: IsEpisode(c, logs[k], es[k], logs[k + 1])
  }

  lemma SessionPrefix(c: Common, es: seq<Episode>, logs: seq<Logs>)
    requires IsSession(c, es, logs) && es != []
    ensures IsSession(c, Front(es), Front(logs)) && LastOf(Front(logs)) == logs[|es| - 1]
    ensures IsEpisode(c, logs[|es| - 1], LastOf(es), LastOf(logs))
  {
    forall k | 0 <= k < |Front(es)| ensures IsEpisode(c, Front(logs)[k], Front(es)[k], Front(logs)[k + 1]) {
      assert IsEpisode(c, logs[k], es[k], logs[k + 1]);
    }
  }

  // ---- How often an index was persisted ----

  function Times(writes: seq<Write>, i: nat): nat {
    if writes == [] then 0 else Times(Front(writes), i) + if LastOf(writes).index == i then 1 else 0
  }

  /** Whether a run stopped between persisting record `i` and auditing it. */
  predicate TearsAt(e: Episode, i: nat) {
    e.torn && e.n == i && i < |e.tape| && e.tape[i].writes != []
  }

  function Tears(es: seq<Episode>, i: nat): nat {
    if es == [] then 0 else Tears(Front(es), i) + if TearsAt(LastOf(es), i) then 1 else 0
  }

  /** Whether a run that persists nothing logged record `i` as a success. */
  predicate DriesAt(e: Episode, i: nat) {
    !e.opts.mode.Execute? && i < e.n && i !in e.skip && i < |e.tape| && e.tape[i].entry.succeeded
  }

  function Dries(es: seq<Episode>, i: nat): nat {
    if es == [] then 0 else Dries(Front(es), i) + if DriesAt(LastOf(es), i) then 1 else 0
  }

  ghost predicate OnlyExecutes(es: seq<Episode>) {
    forall e | e in es :: e.opts.mode.Execute?
  }

  lemma {:induction false} TimesAppend(a: seq<Write>, b: seq<Write>, i: nat)
    ensures Times(a + b, i) == Times(a, i) + Times(b, i)
  {
    if b == [] {
      assert a + b == a;
    } else {
      assert Front(a + b) == a + Front(b) && LastOf(a + b) == LastOf(b);
      TimesAppend(a, Front(b), i);
    }
  }

  lemma TimesOfTrace(t: Trace, i: nat, j: nat)
    requires |t.writes| <= 1 && (t.writes != [] ==> t.writes[0].index == i)
    ensures Times(t.writes, j) == if t.writes != [] && i == j then 1 else 0
  {
    if t.writes != [] {
      assert Front(t.writes) == [];
    }
  }

  /** One walk persists an index at most once. */
  lemma {:induction false} WalkWritesOnce(tape: seq<Trace>, skip: set<nat>, n: nat, i: nat)
    requires IsTape(tape) && n <= |tape|
    ensures Times(WritesUpTo(tape, skip, n), i) == if i < n && i !in skip && tape[i].writes != [] then 1 else 0
  {
    if n > 0 {
      WalkWritesOnce(tape, skip, n - 1, i);
      TimesOfTrace(tape[n - 1], n - 1, i);
      if n - 1 !in skip {
        TimesAppend(WritesUpTo(tape, skip, n - 1), tape[n - 1].writes, i);
      } else {
        assert WritesUpTo(tape, skip, n) == WritesUpTo(tape, skip, n - 1);
      }
    }
  }

  lemma {:induction false} WalkWritesAreTraced(tape: seq<Trace>, skip: set<nat>, n: nat, w: Write)
    requires IsTape(tape) && n <= |tape| && w in WritesUpTo(tape, skip, n)
    ensures w.index < n && w.index !in skip && tape[w.index].writes == [w]
  {
    if w in WritesUpTo(tape, skip, n - 1) {
      WalkWritesAreTraced(tape, skip, n - 1, w);
    }
  }

  /** What one run adds to the cursor: the records below `n` that it attempted with success. */
  lemma EpisodeCursor(c: Common, before: Logs, e: Episode, after: Logs, i: nat)
    requires IsEpisode(c, before, e, after)
    ensures i in CursorOf(after.audit, c.runId) <==>
            i in CursorOf(before.audit, c.runId) || (i < e.n && i !in e.skip && e.tape[i].entry.succeeded)
  {
    var added := EntriesUpTo(e.tape, e.skip, e.n);
    CursorAppend(before.audit, added, c.runId);
    CursorMembers(added, c.runId, i);
    if x :| x in added && x.runId == c.runId && x.succeeded && x.recordIndex == i {
      EntriesAreTheUnskipped(e.tape, e.skip, e.n, x);
    }
    if i < e.n && i !in e.skip {
      EntriesAreTheUnskipped(e.tape, e.skip, e.n, e.tape[i].entry);
    }
  }

  /** One run persists record `i`, or logs it dry, as often as it adds it to the cursor or tears at it. */
  lemma EpisodeConserves(c: Common, before: Logs, e: Episode, after: Logs, i: nat)
    requires IsEpisode(c, before, e, after)
    ensures Times(after.writes, i) + (if DriesAt(e, i) then 1 else 0) + (if i in CursorOf(before.audit, c.runId) then 1 else 0)
         == Times(before.writes, i) + (if i in CursorOf(after.audit, c.runId) then 1 else 0) + (if TearsAt(e, i) then 1 else 0)
  {
    TimesAppend(before.writes, WritesUpTo(e.tape, e.skip, Reached(e)), i);
    WalkWritesOnce(e.tape, e.skip, Reached(e), i);
    EpisodeCursor(c, before, e, after, i);
  }

  /** Conservation: what was persisted and what was logged dry is what the cursor holds and what was torn. */
  lemma {:induction false} PersistsAreConserved(c: Common, es: seq<Episode>, logs: seq<Logs>, i: nat)
    requires IsSession(c, es, logs)
    ensures Times(LastOf(logs).writes, i) + Dries(es, i)
         == (if i in CursorOf(LastOf(logs).audit, c.runId) then 1 else 0) + Tears(es, i)
    decreases |es|
  {
    if es != [] {
      SessionPrefix(c, es, logs);
      PersistsAreConserved(c, Front(es), Front(logs), i);
      EpisodeConserves(c, logs[|es| - 1], LastOf(es), LastOf(logs), i);
    }
  }

  /** An index is logged dry once at most: from then on it is skipped. */
  lemma {:induction false} DriedOnce(c: Common, es: seq<Episode>, logs: seq<Logs>, i: nat)
    requires IsSession(c, es, logs)
    ensures Dries(es, i) <= 1
    ensures Dries(es, i) == 1 ==> i in CursorOf(LastOf(logs).audit, c.runId)
    decreases |es|
  {
    if es != [] {
      SessionPrefix(c, es, logs);
      DriedOnce(c, Front(es), Front(logs), i);
      EpisodeCursor(c, logs[|es| - 1], LastOf(es), LastOf(logs), i);
    }
  }

  lemma {:induction false} ExecutesNeverDry(es: seq<Episode>, i: nat)
    requires OnlyExecutes(es)
    ensures Dries(es, i) == 0
  {
    if es != [] {
      assert LastOf(es) in es && forall e | e in Front(es) :: e in es;
      ExecutesNeverDry(Front(es), i);
    }
  }

  /** Whatever was persisted, in any run, is a migration of its stream record. */
  lemma {:induction false} WritesAreMigrations(c: Common, es: seq<Episode>, logs: seq<Logs>, w: Write)
    requires IsSession(c, es, logs) && w in LastOf(logs).writes
    ensures w.index < c.size && c.migration(w.index, w.output)
    decreases |es|
  {
    if es != [] {
      SessionPrefix(c, es, logs);
      var e := LastOf(es);
      if w in logs[|es| - 1].writes {
        WritesAreMigrations(c, Front(es), Front(logs), w);
      } else {
        WalkWritesAreTraced(e.tape, e.skip, Reached(e), w);
      }
    }
  }

  lemma {:induction false} TimesMeansMember(writes: seq<Write>, i: nat)
    ensures Times(writes, i) > 0 <==> exists w | w in writes :: w.index == i
  {
    if writes != [] {
      TimesMeansMember(Front(writes), i);
      assert writes == Front(writes) + [LastOf(writes)];
    }
  }

  lemma PersistedMeansWritten(c: Common, es: seq<Episode>, logs: seq<Logs>, i: nat)
    requires IsSession(c, es, logs)
    ensures Times(LastOf(logs).writes, i) > 0 <==> IsPersisted(c, LastOf(logs), i)
  {
    TimesMeansMember(LastOf(logs).writes, i);
    if w :| w in LastOf(logs).writes && w.index == i {
      WritesAreMigrations(c, es, logs, w);
    }
  }

  /** Some run wrote record `i`, and wrote its migration. */
  ghost predicate IsPersisted(c: Common, at: Logs, i: nat) {
    exists w | w in at.writes :: w.index == i && i < c.size && c.migration(i, w.output)
  }

  /** Crash safety: in a session of execute runs an index that resume would skip was persisted, with its migration, however
      the runs were interrupted. */
  lemma SkippedMeansPersisted(c: Common, es: seq<Episode>, logs: seq<Logs>, i: nat)
    requires IsSession(c, es, logs) && OnlyExecutes(es) && i in CursorOf(LastOf(logs).audit, c.runId)
    ensures IsPersisted(c, LastOf(logs), i)
  {
    ExecutesNeverDry(es, i);
    SkippedIsPersistedIffNotDry(c, es, logs, i);
  }

  /** In any session, dry runs included, an index that resume would skip was persisted if and only if no dry run logged it,
      or some execute run tore at it before. */
  lemma SkippedIsPersistedIffNotDry(c: Common, es: seq<Episode>, logs: seq<Logs>, i: nat)
    requires IsSession(c, es, logs) && i in CursorOf(LastOf(logs).audit, c.runId)
    ensures IsPersisted(c, LastOf(logs), i) <==> Dries(es, i) == 0 || Tears(es, i) > 0
  {
    PersistsAreConserved(c, es, logs, i);
    DriedOnce(c, es, logs, i);
    PersistedMeansWritten(c, es, logs, i);
  }

  /** If resume would skip record `i`, it was persisted. */
  ghost predicate IsTrusted(c: Common, at: Logs, i: nat) {
    i in CursorOf(at.audit, c.runId) ==> IsPersisted(c, at, i)
  }

  /** Resume is safe, over a whole untorn session, exactly when no dry run logged a success under the runId. */
  lemma ResumeIsSafeIffNeverDry(c: Common, es: seq<Episode>, logs: seq<Logs>)
    requires IsSession(c, es, logs) && forall e | e in es :: !e.torn
    ensures (forall i: nat :: IsTrusted(c, LastOf(logs), i)) <==> forall i: nat :: Dries(es, i) == 0
  {
    if i: nat :| !IsTrusted(c, LastOf(logs), i) {
      TrustedIffNotDry(c, es, logs, i);
    } else {
      forall i: nat ensures Dries(es, i) == 0 {
        TrustedIffNotDry(c, es, logs, i);
      }
    }
  }

  lemma TrustedIffNotDry(c: Common, es: seq<Episode>, logs: seq<Logs>, i: nat)
    requires IsSession(c, es, logs) && forall e | e in es :: !e.torn
    ensures IsTrusted(c, LastOf(logs), i) <==> Dries(es, i) == 0
  {
    UntornMeansNoTears(es, i);
    DriedOnce(c, es, logs, i);
    if i in CursorOf(LastOf(logs).audit, c.runId) {
      SkippedIsPersistedIffNotDry(c, es, logs, i);
    }
  }

  /** A last run that succeeds has every index in the cursor. */
  lemma SuccessCoversTheStream(c: Common, es: seq<Episode>, logs: seq<Logs>, i: nat)
    requires IsSession(c, es, logs) && es != [] && LastOf(es).r.RunSuccess? && i < c.size
    ensures i in CursorOf(LastOf(logs).audit, c.runId)
  {
    SessionPrefix(c, es, logs);
    var e := LastOf(es);
    EpisodeCursor(c, logs[|es| - 1], e, LastOf(logs), i);
    NoFailures(e.tape, e.skip, e.n);
  }

  /** After a final success each record was persisted exactly once, if and only if it was torn as often as logged dry;
      without dry runs, if and only if no run tore at it. */
  lemma ExactlyOnceIffNeverTorn(c: Common, es: seq<Episode>, logs: seq<Logs>, i: nat)
    requires IsSession(c, es, logs) && es != [] && LastOf(es).r.RunSuccess? && i < c.size
    ensures Times(LastOf(logs).writes, i) == 1 <==> Tears(es, i) == Dries(es, i)
    ensures OnlyExecutes(es) ==> (Times(LastOf(logs).writes, i) == 1 <==> Tears(es, i) == 0)
  {
    PersistsAreConserved(c, es, logs, i);
    SuccessCoversTheStream(c, es, logs, i);
    if OnlyExecutes(es) {
      ExecutesNeverDry(es, i);
    }
  }

  lemma PersistedIndexesAreInStream(c: Common, es: seq<Episode>, logs: seq<Logs>, i: nat)
    requires IsSession(c, es, logs) && i >= c.size
    ensures Times(LastOf(logs).writes, i) == 0
  {
    TimesMeansMember(LastOf(logs).writes, i);
    if w :| w in LastOf(logs).writes && w.index == i {
      WritesAreMigrations(c, es, logs, w);
    }
  }

  // ---- Against one uninterrupted run ----

  lemma {:induction false} TimesIsMultiplicity(writes: seq<Write>, w: Write)
    requires forall x | x in writes && x.index == w.index :: x == w
    ensures multiset(writes)[w] == Times(writes, w.index)
  {
    if writes != [] {
      assert writes == Front(writes) + [LastOf(writes)];
      assert forall x | x in Front(writes) :: x in writes;
      assert LastOf(writes) in writes;
      TimesIsMultiplicity(Front(writes), w);
    }
  }

  /** A session's writes at one index are all the same write. */
  lemma OneWritePerIndex(c: Common, es: seq<Episode>, logs: seq<Logs>, w: Write)
    requires IsFunctional(c) && IsSession(c, es, logs) && c.migration(w.index, w.output)
    ensures multiset(LastOf(logs).writes)[w] == Times(LastOf(logs).writes, w.index)
  {
    forall x | x in LastOf(logs).writes && x.index == w.index ensures x == w {
      WritesAreMigrations(c, es, logs, x);
    }
    TimesIsMultiplicity(LastOf(logs).writes, w);
  }

  /** Two sessions that persisted every index equally often persisted the same records. */
  lemma SameTimesSameWrites(c: Common, es: seq<Episode>, logs: seq<Logs>, fs: seq<Episode>, others: seq<Logs>)
    requires IsFunctional(c) && IsSession(c, es, logs) && IsSession(c, fs, others)
    requires forall i: nat :: Times(LastOf(logs).writes, i) == Times(LastOf(others).writes, i)
    ensures multiset(LastOf(logs).writes) == multiset(LastOf(others).writes)
  {
    var x, y := LastOf(logs).writes, LastOf(others).writes;
    forall w | w in multiset(x) || w in multiset(y) ensures multiset(x)[w] == multiset(y)[w] {
      if w in x {
        WritesAreMigrations(c, es, logs, w);
      } else {
        WritesAreMigrations(c, fs, others, w);
      }
      OneWritePerIndex(c, es, logs, w);
      OneWritePerIndex(c, fs, others, w);
    }
  }

  /** After a final success the number of times an index was persisted depends on its tears alone. */
  lemma FinalTimes(c: Common, es: seq<Episode>, logs: seq<Logs>, i: nat)
    requires IsSession(c, es, logs) && es != [] && LastOf(es).r.RunSuccess? && OnlyExecutes(es)
    requires forall e | e in es :: !e.torn
    ensures Times(LastOf(logs).writes, i) == if i < c.size then 1 else 0
  {
    if i < c.size {
      UntornMeansNoTears(es, i);
      ExactlyOnceIffNeverTorn(c, es, logs, i);
    } else {
      PersistedIndexesAreInStream(c, es, logs, i);
    }
  }

  lemma {:induction false} UntornMeansNoTears(es: seq<Episode>, i: nat)
    requires forall e | e in es :: !e.torn
    ensures Tears(es, i) == 0
  {
    if es != [] {
      assert LastOf(es) in es && forall e | e in Front(es) :: e in es;
      UntornMeansNoTears(Front(es), i);
    }
  }

  /** Where audit appends land and no process dies right after a persist, no run tears. */
  lemma SafeWorldNeverTears(c: Common, before: Logs, e: Episode, after: Logs)
    requires IsEpisode(c, before, e, after) && forall i: nat :: !CanTear(e.world.at(i))
    ensures !e.torn
  {
  }

  /** Any interrupted and resumed session of execute runs without a tear persists what one uninterrupted successful run would. */
  lemma ResumeEqualsOneRun(c: Common, es: seq<Episode>, logs: seq<Logs>, whole: Episode, start: Logs, end: Logs)
    requires IsFunctional(c)
    requires IsSession(c, es, logs) && es != [] && LastOf(es).r.RunSuccess?
    requires OnlyExecutes(es) && forall e | e in es :: !e.torn
    requires IsSession(c, [whole], [start, end]) && whole.r.RunSuccess? && whole.opts.mode.Execute?
    ensures multiset(LastOf(logs).writes) == multiset(end.writes)
  {
    forall i: nat ensures Times(LastOf(logs).writes, i) == Times(end.writes, i) {
      FinalTimes(c, es, logs, i);
      assert IsEpisode(c, [start, end][0], [whole][0], [start, end][1]) && !whole.torn;
      FinalTimes(c, [whole], [start, end], i);
    }
    SameTimesSameWrites(c, es, logs, [whole], [start, end]);
  }

  // ---- Where the log misleads ----

  lemma {:induction false} AllSkipped(tape: seq<Trace>, skip: set<nat>, n: nat)
    requires n <= |tape| && forall i: nat | i < n :: i in skip
    ensures WritesUpTo(tape, skip, n) == [] && EntriesUpTo(tape, skip, n) == []
  {
    if n > 0 {
      AllSkipped(tape, skip, n - 1);
    }
  }

  /** A run that succeeds puts every index of the stream under its runId, whatever its mode. */
  lemma SuccessFillsTheCursor(tape: seq<Trace>, opts: RunOpts, world: World, skip: set<nat>, r: RunResult, runId: string,
                              log: seq<AuditEntry>, i: nat)
    requires IsTape(tape) && IsWalkResult(tape, opts, world, skip, |tape|, false, r) && r.RunSuccess?
    requires (forall t | t in tape :: t.entry.runId == runId) && skip == (set j | j in CursorOf(log, runId)) && i < |tape|
    ensures i in CursorOf(log + EntriesUpTo(tape, skip, |tape|), runId)
  {
    var added := EntriesUpTo(tape, skip, |tape|);
    NoFailures(tape, skip, |tape|);
    CursorAppend(log, added, runId);
    if i !in skip {
      EntriesAreTheUnskipped(tape, skip, |tape|, tape[i].entry);
      CursorMembers(added, runId, i);
      assert tape[i] in tape;
    }
  }

  /** Nothing outside the runner stops a walk. */
  ghost predicate IsCalm(world: World) {
    && (forall i: nat :: !world.at(i).streamThrows && !world.at(i).aborted)
    && (world.flush.Some? ==> world.flush.value.Works?)
  }

  /** A run that may skip everything does nothing, and succeeds unless the world stops it. */
  lemma BlockedRun(tape: seq<Trace>, opts: RunOpts, world: World, skip: set<nat>, n: nat, torn: bool, r: RunResult)
    requires IsWalkResult(tape, opts, world, skip, n, torn, r) && forall i: nat | i < |tape| :: i in skip
    ensures WritesUpTo(tape, skip, n) == [] && EntriesUpTo(tape, skip, n) == [] && !torn
    ensures IsCalm(world) ==> r == RunSuccess(Counts(|tape|, 0, 0))
  {
    AllSkipped(tape, skip, n);
  }
}
