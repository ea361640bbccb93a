# Schema evolution and data migration: a verified model

This project models the schema evolution and data migration engine of NekoStack: the pure half of `packages/schema`
and the runner in `packages/migrate-runner`. `dafny verify dfyconfig.toml` checks it.

Everything rests on one meaning of the schema IR: which values a node accepts, and what parsing returns (`Values.dfy`,
`Schema.dfy`). On it stand

- the diff classifier: as it runs (`DiffWalker.dfy`), as a function (`Diff.dfy`), its soundness for input acceptance
  (`DiffSoundness.dfy`), where it is exact (`DiffExactness.dfy`) and its exact gaps (`DiffLimits.dfy`);
- the planner and its backtracking search for migration chains (`Registries.dfy`, `Chains.dfy`, `Planner.dfy`);
- the runner: provenance verification, pre-flight, the per-record pipeline, the record walk with its adapters, and
  whole histories of interrupted and resumed runs (`Verify.dfy`, `PreFlight.dfy`, `Pipeline.dfy`, `RunTypes.dfy`,
  `Adapters.dfy`, `Walks.dfy`, `Runner.dfy`, `Resume.dfy`, `Safety.dfy`, over `KeyOrder.dfy`);
- three compilers out of the IR: the validate variant (`StripDefaults.dfy`), JSON Schema (`Fragment.dfy`,
  `FragmentWriter.dfy`, `FragmentMeaning.dfy`, `FragmentLimits.dfy`, with keywords read by sections 6.1 to 6.5 of JSON
  Schema Validation draft 2020-12 and sections 10.2.1.2, 10.3.1.2, 10.3.2.1 and 10.3.2.3 of JSON Schema Core draft
  2020-12) and TypeScript type text (`TypeText.dfy`, `TypePrinting.dfy`, read back by `TypeGrammar.dfy`,
  `TypeParsing.dfy`, `TypeDocs.dfy` and `TypeLexing.dfy`, with `TypeLimits.dfy`);
- composition of object schemas (`Composition.dfy`);
- JSON text and its reader (`Json.dfy`, `JsonReading.dfy`, over `JsonText.dfy`, `Lexing.dfy` and `Folds.dfy`), and on it
  the canonical serialization behind the IR hash (`Canonical.dfy`) and the JSONL audit log (`Jsonl.dfy`);
- provenance that is written and read back: of migrations (`Headers.dfy`, `HeaderText.dfy`, `Stub.dfy`,
  `MigrationIndex.dfy`) and of generated artifacts, up to generating and checking a whole registry (`Artifacts.dfy`,
  `ArtifactReading.dfy`, `ArtifactCheck.dfy`).

The source's mutable objects are classes (`ChainSearch`, `KeywordObject`, `AuditLog`, `OutputSink`, `MigrationRunner`,
`JsonlAuditLog`), and its loops are methods proved against a function; the theorems are lemmas about those functions.

Where the outside world decides, it is a parameter: pattern and format predicates (`Formats`), the clock, which adapter
call works, throws or kills the process (`World`), and the text of numbers. Canonical texts are for any strict total order
of keys, as that of `sort()` is (`KeyOrder.dfy`).

## Where the code and its documentation part ways

The model follows the code.

- The classifier documents "additive" as accepting no less. It does not under a `passthrough` or `stripUnknown` object
  that gains a field, nor for a default its node rejects, nor with a refinement name used twice; `DiffSoundness` and
  `DiffLimits` give the exact conditions.
- The comment at packages/schema/src/migrations/parse-provenance.ts:160-163 says that whitespace-only header values are
  refused. The pattern backtracks and reads one whitespace character, unless all of the value is line terminators
  (`Headers.BlankIsReadIff`, `Stub.BlankIdIsAccepted`).
- Dry runs write success entries, and resuming does not look at the mode. `Resume.SkippedIsPersistedIffNotDry` says exactly
  when a skipped index was persisted all the same; `Safety.DryRunBlocksResume` is the failure.
- Later refinements overwrite the keywords of earlier ones in a fragment, while the runtime applies all of them
  (`FragmentLimits.LooseningAcceptsMore`; exact for bounds of one name in `OverwritingAgreesIffUpheld`).
- The check for a top-level union does not know doc comments (`TypeLimits.QuoteInDocMisleads`; exactly when it is right, in
  `UnionCheckIsRightIff` and `FlatCheckIsRightIff`).

## Model

| member | source | states |
|---|---|---|
| Schema.ParseSucceedsIffAccepted | packages/schema/src/generators/zod-mapping.ts:108-188 | parsing succeeds on exactly the values the node accepts: base, refinements, absence modifiers, then default, at every depth |
| Schema.ParseIdempotent | packages/schema/src/generators/zod-mapping.ts:108-251 | parsing an output again succeeds and gives the same output, for every node, with no condition on defaults |
| Schema.OutputIsAccepted | packages/schema/src/generators/zod-mapping.ts:108-251 | what parsing returns, the node accepts |
| StripDefaults.StripDefaultsForValidate | packages/schema/src/runtime/strip-defaults.ts:56-88 | the field-by-field transform computes the validate variant, every field of a record once |
| StripDefaults.StripIsDefaultFree | packages/schema/src/runtime/strip-defaults.ts:56-88 | the validate variant has no default at any depth |
| StripDefaults.StripFixesDefaultFree | packages/schema/src/runtime/strip-defaults.ts:56-88 | a schema is its own validate variant if and only if it is default-free |
| StripDefaults.StripIdempotent | packages/schema/src/runtime/strip-defaults.ts:56-88 | stripping twice is stripping once |
| StripDefaults.ParsedIsValid | packages/schema/src/runtime/strip-defaults.ts:56-88 | whatever parses validates, with no condition on defaults |
| StripDefaults.ValidIsParsed | packages/schema/src/runtime/strip-defaults.ts:56-88 | whatever validates parses, where every default is accepted by its own node |
| StripDefaults.ValidateAgreesIffDefaultsAccepted | packages/schema/src/runtime/strip-defaults.ts:56-88 | validation and parsing agree on every input if and only if every default is accepted by its own node (`.default` does not check it); for schemas whose arrays and objects accept some value |
| DiffWalker.DiffNodes | packages/schema/src/registry/diff.ts:49-56 | the classifier as it runs, with lists pushed to and maps filled, returns the changes of the specification walk |
| DiffWalker.WalkNode | packages/schema/src/registry/diff.ts:62-123 | one node: a kind change is the only change; otherwise the axes in order, then the children |
| DiffWalker.IndexByName | packages/schema/src/registry/diff.ts:300-311 | the refinement map holds the last refinement of each name, its keys in first-seen order |
| DiffWalker.RefinementChanges | packages/schema/src/registry/diff.ts:300-379 | dropped, added and re-parametrised names, and a reordering only where nothing else moved |
| DiffWalker.ObjectChanges | packages/schema/src/registry/diff.ts:425-481 | policy change, then each key of either record once, in first-seen order |
| DiffWalker.EnumChanges | packages/schema/src/registry/diff.ts:525-557 | added values, then removed values |
| DiffWalker.ComputeWorstSeverity | packages/schema/src/migrations/plan-migration.ts:192-203 | the worst severity bounds every change and is reached by one; none for an empty list |
| DiffSoundness.NonBreakingSound | packages/schema/src/registry/diff.ts:4-10 | at most additive changes: every value the old schema accepts the new one accepts, at every nesting depth, where added fields are safe and refinement names used once |
| DiffSoundness.NonBreakingSoundIffAdditionsSafe | packages/schema/src/registry/diff.ts:4-10 | the exact condition: acceptance is kept if and only if every object that gains a field was strict and the new field accepts its own absence; for an old schema whose arrays and objects accept something |
| DiffSoundness.NonBreakingLoosens | packages/schema/src/registry/diff.ts:62-123 | the same for duplicated names, between the schemas with shadowed refinements dropped |
| DiffSoundness.UnsafeAdditionShows | packages/schema/src/registry/diff.ts:454-463 | an unsafe addition shows, where the old arrays and objects accept something: a value accepted before and rejected after |
| DiffSoundness.AddedFieldAcceptsAbsence | packages/schema/src/registry/diff.ts:488-503 | a field added without a breaking change accepts its absence if and only if its default, if any, is accepted |
| DiffSoundness.CosmeticPreserves | packages/schema/src/migrations/plan-migration.ts:192-203 | at most cosmetic changes: both schemas accept the same values, shadowed refinements dropped; nothing asked of policies or defaults |
| DiffSoundness.CosmeticMeansEquivalent | packages/schema/src/migrations/plan-migration.ts:192-203 | no change or cosmetic changes only: exactly the same values, where refinement names are used once |
| DiffSoundness.RefinementsLoosen | packages/schema/src/registry/diff.ts:300-379 | without a breaking refinement change, the new last-named refinements demand no more |
| DiffSoundness.AbsenceLoosens | packages/schema/src/registry/diff.ts:185-294 | without a breaking default or absence change, an accepted value is filled in alike, and absence and null stay accepted |
| DiffSoundness.LastNamedIsLast | packages/schema/src/registry/diff.ts:308-311 | the refinement kept under a name is the last with that name |
| DiffLimits.LooseShadowsAreSafe | packages/schema/src/registry/diff.ts:308-311 | the gate is sound, duplicate names and all, where every refinement is the last of its name or a bound no tighter than it, at every depth |
| DiffLimits.GateIsSoundIffShadowsLoose | packages/schema/src/registry/diff.ts:308-311 | for a schema with bounds of one name the exact condition: the gate is sound against every earlier schema if and only if no shadowed bound is tighter than the last |
| DiffLimits.ShadowingIsTheOnlyRefinementGap | packages/schema/src/registry/diff.ts:308-311 | in general: sound against every earlier schema if and only if the schema without its shadowed refinements accepts no more |
| DiffLimits.DuplicateNamesHideChanges | packages/schema/src/registry/diff.ts:308-311 | witness: no change reported between `[min 5, min 2]` and `[min 2]`, which accept different numbers |
| DiffLimits.AdditiveCanShrink | packages/schema/src/registry/diff.ts:454-463 | witness: a field added to a `passthrough` object is additive, and an accepted value is rejected afterwards |
| DiffLimits.WalkSelf | packages/schema/src/registry/diff.ts:62-123 | a schema has no changes against itself |
| DiffExactness.BoundSeverityIsExact | packages/schema/src/registry/diff.ts:392-419 | a moved bound that is additive lets through all the old one did; with whole numbers where counts are bounded, if and only if |
| DiffExactness.AbsenceSeverityIsExact | packages/schema/src/registry/diff.ts:241-294 | without defaults, an absence change is breaking if and only if undefined or null was let in and no longer is |
| DiffExactness.DefaultOnOptionalIsOvercautious | packages/schema/src/registry/diff.ts:266-274 | a default given to an optional node is called breaking by the masking, and rejects nothing |
| DiffExactness.EnumSeverityIsExact | packages/schema/src/registry/diff.ts:525-557 | an enum change is breaking if and only if a value was lost, and no change if and only if the values are the same |
| DiffExactness.UnknownKeysSeverityIsExact | packages/schema/src/registry/diff.ts:505-519 | a policy change is breaking if and only if it rejects an accepted object |
| DiffExactness.RequiredAdditionRejectsAll | packages/schema/src/registry/diff.ts:488-503 | a field called breaking to add to a strict object makes everything it accepted rejected |
| Chains.ChainSearch.Dfs | packages/schema/src/migrations/plan-migration.ts:234-256 | terminates, restores the visited set and the chain, and appends exactly the enumerated paths behind the current chain |
| Chains.ChainSearch.Follow | packages/schema/src/migrations/plan-migration.ts:244-255 | one turn of the search loop: visited targets are passed over, the others explored and undone |
| Chains.EnumerateChains | packages/schema/src/migrations/plan-migration.ts:221-232 | the chains of the enumerated paths, in order; none from a version to itself |
| Chains.PathsAreExact | packages/schema/src/migrations/plan-migration.ts:234-256 | the enumeration holds a path if and only if it is simple and avoids the visited versions |
| Chains.PathsAreDistinct | packages/schema/src/migrations/plan-migration.ts:234-256 | each path once |
| Chains.EnumerationIsExact | packages/schema/src/migrations/plan-migration.ts:221-232 | from an unvisited start: exactly the simple paths, each once |
| Chains.LoopErasure | packages/schema/src/migrations/plan-migration.ts:234-256 | any walk can be cut to a simple path with the same ends |
| Chains.NoPathsMeansUnreachable | packages/schema/src/migrations/plan-migration.ts:144-150 | the search finds nothing if and only if no walk at all joins the versions |
| Planner.PlanMigration | packages/schema/src/migrations/plan-migration.ts:70-167 | missing endpoints, then the worst severity, decide: no chain for non-breaking diffs; for breaking ones not-found without entries, broken, ambiguous or the one chain |
| Planner.ResolveChain | packages/schema/src/migrations/plan-migration.ts:132-166 | broken if and only if unreachable, success if and only if one simple path, ambiguous if and only if two or more |
| Planner.CountIsExact | packages/schema/src/migrations/plan-migration.ts:132-166 | the number of chains found says whether there are none, one or several simple paths |
| Planner.VersionPathFromChain | packages/schema/src/migrations/plan-migration.ts:258-266 | the versions along the chain, start first |
| Planner.VersionPathIsTheChain | packages/schema/src/migrations/plan-migration.ts:258-266 | the version path repeats nothing, joins the endpoints, and its consecutive pairs are the hops of the chain |
| Planner.PlannedChainIsHopChain | packages/schema/src/migrations/plan-migration.ts:132-166 | a planned chain joins the requested versions hop by hop, and its hops leave distinct versions |
| Verify.IterateRegistry | packages/schema/src/migrations/verify-provenance.ts:99-114 | every binding of the registry, once, in lexicographic order of schema id, from and to version |
| Verify.VisitIsUnique | packages/schema/src/migrations/verify-provenance.ts:92-114 | the order is fixed by the bindings: registries with the same bindings, filled in any order, are visited alike |
| Verify.VerifyMigrationProvenance | packages/schema/src/migrations/verify-provenance.ts:60-86 | the verdicts on the entries in visiting order with the four counts, or the refused verdicts in that order |
| Verify.ReportIsRight | packages/schema/src/migrations/verify-provenance.ts:60-86 | succeeds if and only if no stored entry is refused: then with a verdict on every entry, and counts that account for each; otherwise the refused verdicts and no others |
| Verify.SummaryAddsUp | packages/schema/src/migrations/verify-provenance.ts:65-75 | every verdict is counted once, under its status |
| KeyOrder.SortKeys | packages/schema/src/migrations/verify-provenance.ts:99-114 | the keys in the order of `sort()`, by UTF-16 code units, each once |
| KeyOrder.BeforeIsKeyOrder | packages/schema/src/ir/serialize.ts:12-22 | that order is a strict total order on texts |
| Verify.BuildChainScopedRegistry | packages/migrate-runner/src/pre-flight.ts:159-180 | the nested maps filled from the chain |
| Verify.ScopedHoldsExactlyTheChain | packages/migrate-runner/src/pre-flight.ts:159-180 | the scoped registry stores an entry if and only if it is in the chain, when its hops leave distinct versions |
| PreFlight.RunPreFlight | packages/migrate-runner/src/pre-flight.ts:61-145 | refused exactly for a refused plan, a refused hop, or a drifted hop that is not allowed; success clears the chain against the registered hashes, with exactly its entries in scope |
| PreFlight.ClearedChainFindsSchemas | packages/migrate-runner/src/pre-flight.ts:61-145 | a cleared chain has both endpoint schemas and, hop by hop, the registered IR hashes |
| Pipeline.RunRecordPipeline | packages/migrate-runner/src/per-record-pipeline.ts:63-137 | every result is explained: where it stopped, what had been computed by then, and each transform called once, in order |
| Pipeline.SuccessIsTheMigration | packages/migrate-runner/src/per-record-pipeline.ts:63-137 | a success is the destination parse of the in-order fold of the transforms over the source parse, and the only such value |
| Pipeline.FailuresAreTheirOwn | packages/migrate-runner/src/per-record-pipeline.ts:63-137 | a failure has one of the four per-record classifications |
| Pipeline.MigratedIsAccepted | packages/migrate-runner/src/per-record-pipeline.ts:63-137 | a migrated record is accepted by the destination schema |
| Adapters.AuditLog.Cursor | packages/migrate-runner/src/audit.ts:52-87 | the success indexes of the run, in order |
| Runner.MigrationRunner.HandleRecord | packages/migrate-runner/src/runner.ts:202-296 | pipeline, persist, audit: what is in the log and the sink after each way this can end |
| Runner.MigrationRunner.Settle | packages/migrate-runner/src/runner.ts:209-296 | a handled record is counted and the loop goes on, stops under `stop`, or leaves by a throwing append |
| Runner.MigrationRunner.WalkOne | packages/migrate-runner/src/runner.ts:197-297 | one turn: stream error, end, abort, skip, or a handled record; the log and the sink grow by that record alone |
| Runner.MigrationRunner.WalkRecords | packages/migrate-runner/src/runner.ts:196-351 | the log and the sink are, in closed form, those of the unskipped records reached, under `stop` at most one of them failed, the last; and the result is one the walk may have |
| Runner.MigrationRunner.Prepare | packages/migrate-runner/src/runner.ts:92-140 | pre-flight, empty chain and `validate-only` end the run without touching log or sink |
| Runner.MigrationRunner.ReadSkipSet | packages/migrate-runner/src/runner.ts:142-189 | the resume cursor, its failure, and the abort before the first record |
| Runner.MigrationRunner.Run | packages/migrate-runner/src/runner.ts:89-351 | a whole run: its result, the entries and writes it appended, and the plan it followed |
| Runner.WritesMatchEntries | packages/migrate-runner/src/runner.ts:218-268 | in `execute` mode an entry is a success if and only if its write landed, and the write is the one migration of the record |
| Walks.ReportedCountsAddUp | packages/migrate-runner/src/runner.ts:178-374 | reported records are successes, failures and skipped, and one more exactly when an append threw |
| Walks.RecordsAreAccounted | packages/migrate-runner/src/runner.ts:178-296 | at every record: records are successes, failures and skipped; entries are successes and failures |
| Walks.EntriesAreTheUnskipped | packages/migrate-runner/src/runner.ts:196-297 | the entries are those of the unskipped records reached, and no others |
| Walks.EntriesAreInOrder | packages/migrate-runner/src/runner.ts:196-297 | record indexes increase strictly |
| Walks.FailuresHaveAFirst | packages/migrate-runner/src/runner.ts:181-183 | a first failure is recorded if and only if there is a failure |
| Walks.FirstFailureIsLowest | packages/migrate-runner/src/runner.ts:181-183 | the recorded first failure is that of the lowest failed index |
| Walks.StopStep | packages/migrate-runner/src/runner.ts:286-295 | under `stop` a failed record ends the run with one failure, the last entry |
| Walks.FinalResultIsRight | packages/migrate-runner/src/runner.ts:315-351 | flush, then the aggregate failure or success, by the counters |
| Resume.SkippedMeansPersisted | packages/migrate-runner/src/runner.ts:142-163 | crash safety: in any session of `execute` runs, interrupted anywhere, an index resume would skip has been persisted, with its migration |
| Resume.SkippedIsPersistedIffNotDry | packages/migrate-runner/src/runner.ts:253-268 | in any session, dry runs included, an index resume would skip has been persisted if and only if no dry run logged it or an `execute` run was torn at it |
| Resume.ResumeIsSafeIffNeverDry | packages/migrate-runner/src/runner.ts:142-163 | over an untorn session, every index resume would skip has been persisted if and only if no dry run logged a success under the run id |
| Resume.PersistsAreConserved | packages/migrate-runner/src/runner.ts:196-297 | conservation, over any session of runs on one run id, dry or not, interrupted anywhere: how often an index was persisted or logged dry is whether the cursor holds it, and how often a run was torn at it |
| Resume.DriedOnce | packages/migrate-runner/src/runner.ts:253-268 | an index is logged dry once at most, and is skipped from then on |
| Resume.ExactlyOnceIffNeverTorn | packages/migrate-runner/src/runner.ts:196-351 | after a final success each index was persisted exactly once if and only if it was torn as often as logged dry; without dry runs, if and only if never torn |
| Resume.SuccessCoversTheStream | packages/migrate-runner/src/runner.ts:341-351 | a final success leaves every stream index in the cursor |
| Resume.SafeWorldNeverTears | packages/migrate-runner/src/runner.ts:218-268 | where appends land and no process dies between write and entry, no run is torn |
| Resume.ResumeEqualsOneRun | packages/migrate-runner/src/runner.ts:142-351 | an untorn session of interrupted and resumed runs persists, as a multiset of indexed outputs, what one uninterrupted run would, once both end in success |
| Resume.WritesAreMigrations | packages/migrate-runner/src/runner.ts:218-252 | whatever any run persisted is a migration of its stream record |
| Resume.WalkWritesOnce | packages/migrate-runner/src/runner.ts:196-297 | one walk persists an index at most once |
| Resume.SuccessFillsTheCursor | packages/migrate-runner/src/runner.ts:253-268 | a run that succeeds puts every stream index under its run id, whatever its mode |
| Safety.DryRunBlocksResume | packages/migrate-runner/src/runner.ts:142-351 | after a successful dry run nothing was written and every index is skipped: the `execute` run that resumes it writes nothing, logs nothing, and in a calm world reports success |
| Safety.DryRunSucceeds | packages/migrate-runner/src/runner.ts:253-268 | there are such runs: in a calm world a dry run succeeds on every stream whose records migrate |
| Safety.RunIsEpisode | packages/migrate-runner/src/runner.ts:89-351 | every walking run of the runner, dry or not, is a step of a session |
| Safety.SameSession | packages/migrate-runner/src/runner.ts:89-90 | runs with the same schemas, chain, stream and run id belong to one session, whatever their modes and worlds |
| Safety.MigrationSafety | packages/migrate-runner/src/runner.ts:89-351 | after a successful `execute` run either the new schema covers the old one, or every write of the run is accepted by the new schema and every stream record was written now or is in the cursor |
| Safety.SessionSafety | packages/migrate-runner/src/runner.ts:142-351 | after any session of `execute` runs that ends in success, every stream record has a write that the new schema accepts |
| Safety.EmptyPlanIsNotBreaking | packages/schema/src/migrations/plan-migration.ts:100-131 | a planned empty chain means the diff was not breaking |
| Safety.WriteIsAccepted | packages/migrate-runner/src/runner.ts:218-252 | every write of a walk over a cleared chain is accepted by the schema registered for the target version |
| Fragment.EmitsIffEmittable | packages/schema/src/generators/schema-fragment.ts:62-267 | emission fails exactly for an empty enum, a pattern with flags or a bound without a number, at any depth |
| Fragment.FieldsEmit | packages/schema/src/generators/schema-fragment.ts:131-169 | the emitted properties are the declared fields, each with its own fragment |
| FragmentWriter.KeywordObject.ApplyPortableRefinement | packages/schema/src/generators/schema-fragment.ts:199-267 | writes exactly the keywords of the refinement over what was there, or fails and writes nothing |
| FragmentWriter.KeywordObject.ApplyPortableRefinements | packages/schema/src/generators/schema-fragment.ts:188-197 | in order, up to the first failure |
| FragmentWriter.KeywordObject.ApplyNullability | packages/schema/src/generators/schema-fragment.ts:276-300 | rewrites `type`, `enum` or `const` so that null is let in |
| FragmentWriter.EmitSchemaFragment | packages/schema/src/generators/schema-fragment.ts:62-81 | base, refinements, description, nullability and default, written into one object, give the specified fragment or its first error |
| FragmentWriter.EmitObject | packages/schema/src/generators/schema-fragment.ts:131-169 | properties, the required list and the policy, field by field |
| FragmentMeaning.FragmentAdmits | packages/schema/src/generators/schema-fragment.ts:62-307 | no accepted JSON value is invalid: overwriting a keyword only weakens |
| FragmentMeaning.FragmentAdmitsOnly | packages/schema/src/generators/schema-fragment.ts:62-307 | where every refinement is upheld by what stands under its keywords in the end, no rejected JSON value is valid |
| FragmentMeaning.RefinedWritten | packages/schema/src/generators/schema-fragment.ts:199-267 | where refinements are upheld, what ends up under a keyword is at least as tight as what each of them wrote there, whatever stood there before |
| FragmentMeaning.HoldsIsAsserted | packages/schema/src/generators/schema-fragment.ts:199-267 | a refinement demands what its keywords assert, for text inside the basic plane |
| FragmentMeaning.FinishedMeaning | packages/schema/src/generators/schema-fragment.ts:271-307 | description and default assert nothing; nullability lets in null and nothing else |
| FragmentMeaning.AbsenceMeaning | packages/schema/src/generators/schema-fragment.ts:179-184 | a key is left out of `required` if and only if its field may be absent after stripping |
| FragmentLimits.CompilationPreservesMeaning | packages/schema/src/generators/schema-fragment.ts:62-307 | a JSON value without astral characters is valid against the emitted fragment if and only if the node accepts it, where every refinement is upheld in the end and every field accepts its own default |
| FragmentLimits.AcceptedIsValid | packages/schema/src/generators/schema-fragment.ts:62-307 | one half with no condition on overwriting or defaults |
| FragmentLimits.AgreesIffFieldDefaultsAccepted | packages/schema/src/generators/schema-fragment.ts:179-184 | of the defaults the exact condition: agreement on every such JSON value if and only if every field accepts its own default |
| FragmentLimits.LosesNothingIffTighter | packages/schema/src/generators/schema-fragment.ts:206-217 | a bound may be overwritten without loss if and only if the later one is no looser |
| FragmentLimits.OverwritingAgreesIffUpheld | packages/schema/src/generators/schema-fragment.ts:188-267 | of overwriting the exact condition for nodes with bounds of one name: fragment and node agree on every such JSON value if and only if the last bound upholds them all |
| FragmentLimits.LooseningAcceptsMore | packages/schema/src/generators/schema-fragment.ts:206-217 | witness: `length 4` then `minLength 2` compiles to 2 to 4, and a rejected text of three is valid |
| FragmentLimits.LengthsAgreeIffBmp | packages/schema/src/generators/schema-fragment.ts:199-217 | JSON Schema counts characters and the runtime code units: they agree on all bounds if and only if no character is above U+FFFF |
| TypeText.FindTopLevelUnion | packages/schema/src/generators/ts.ts:158-180 | the character loop over depth, string and escape flags |
| TypePrinting.UnionCheckIsExact | packages/schema/src/generators/ts.ts:158-180 | on the text of a node whose descriptions are balanced, that is, scanned below the top level come out as they went in, the check is true if and only if the denoted type is a union |
| TypePrinting.BalancedBuilds | packages/schema/src/generators/ts.ts:158-180 | brackets around balanced text, and balanced texts side by side, are balanced |
| TypePrinting.QuotedIsBalanced | packages/schema/src/generators/ts.ts:158-180 | a quoted text is balanced, whatever its brackets and bars |
| TypePrinting.ScanType | packages/schema/src/generators/ts.ts:85-137 | the same inside any enclosing text, for every part the printer nests |
| TypeLexing.TypeLexes | packages/schema/src/generators/ts.ts:85-239 | the printed text of a node whose descriptions stay in their comments has the tokens of the denoted type, comments aside |
| TypeParsing.TypeRoundTrip | packages/schema/src/generators/ts.ts:85-239 | the tokens of any type tree parse back to it: unions, parentheses, arrays, objects |
| TypeLexing.PrintedTypeReadsBack | packages/schema/src/generators/ts.ts:85-239 | the text of every node whose descriptions stay in their comments (below arrays: and are balanced), in every mode, reads back whole as the denoted type: array parentheses, quoted keys and escaped literals included |
| TypeDocs.NoEndStays | packages/schema/src/generators/ts.ts:241-248 | a description without the end of a comment stays in its comment |
| TypeLexing.ReadsBackIffDocsStay | packages/schema/src/generators/ts.ts:191-248 | the exact condition, for objects whose descriptions show no tokens: the text reads back as the denoted type if and only if every description stays in its comment, and is no type at all if and only if one leaves it |
| TypeLimits.UnionCheckIsRightIff | packages/schema/src/generators/ts.ts:85-98 | for every node, whatever its descriptions: where a modifier adds a bar, the check is right if and only if the scan of the bare text has found a union or is outside everything; elsewhere if and only if it has found a union exactly when there is one |
| TypeLimits.FlatCheckIsRightIff | packages/schema/src/generators/ts.ts:191-248 | for objects of plain fields the exact condition on the descriptions: scanned one after the other from inside the braces they show no bar; or, where a bar is to come, show one or leave the scan ready to come out |
| TypeLimits.QuoteInDocMisleads | packages/schema/src/generators/ts.ts:241-248 | witness: a quote in a field description hides the union after it |
| Canonical.Canonicalize | packages/schema/src/ir/serialize.ts:12-22 | the recursive copy computes the canonical form |
| Canonical.CanonicalizeProps | packages/schema/src/ir/serialize.ts:15-21 | keys in sorted order, undefined values dropped |
| Canonical.SerializationIsFaithful | packages/schema/src/ir/serialize.ts:8-10 | two values have the same text if and only if they are equal up to key order and undefined properties |
| Canonical.CanonIsIdempotent | packages/schema/src/ir/serialize.ts:12-22 | canonicalizing twice is canonicalizing once |
| Canonical.CanonKeepsMeaning | packages/schema/src/ir/serialize.ts:12-22 | the canonical form is a plain document with the same meaning |
| JsonReading.JsonReadsBack | packages/schema/src/ir/serialize.ts:8-10 | the text of a JSON document, compact or indented, reads back as that document |
| JsonReading.TextIsInjective | packages/schema/src/ir/serialize.ts:8-10 | different documents have different texts |
| Jsonl.JsonlAuditLog.Append | packages/migrate-runner/src/adapters/jsonl-audit.ts:42-48 | one line is appended, the encoded entry, if and only if the directory has been created and the append lands; otherwise nothing changes |
| Jsonl.JsonlAuditLog.Cursor | packages/migrate-runner/src/adapters/jsonl-audit.ts:49-76 | after any sequence of appends: never malformed, and the success indexes the in-memory log would give |
| Jsonl.ReadCursor | packages/migrate-runner/src/adapters/jsonl-audit.ts:49-76 | the loop over the lines of any text: blank lines passed over, the first malformed line fails |
| Jsonl.LineReadsBack | packages/migrate-runner/src/adapters/jsonl-audit.ts:95-164 | an encoded entry reads back with its run, index and status |
| Jsonl.LineIsFlat | packages/migrate-runner/src/adapters/jsonl-audit.ts:42-48 | an encoded entry is one line, not blank, with nothing to trim |
| Jsonl.JsonlCursorIsMemoryCursor | packages/migrate-runner/src/adapters/jsonl-audit.ts:39-78 | the file refines the in-memory log, for every run id |
| Headers.ReadFields | packages/schema/src/migrations/parse-provenance.ts:102-122 | the fields of a header block, later lines over earlier ones |
| Headers.ReadValuesAreClean | packages/schema/src/migrations/parse-provenance.ts:99-122 | every value read from a header is one trimmed line, whatever the text |
| HeaderText.HeaderReadsBack | packages/schema/src/migrations/stub.ts:197-225 | a header of proper lines is found and reads back as what was written, whatever follows it |
| Headers.BlankIsReadIff | packages/schema/src/migrations/parse-provenance.ts:102-122 | a blank value is read if and only if it has a character that is no line terminator; what is read is the last such character |
| HeaderText.PaddedBlankIsRead | packages/schema/src/migrations/parse-provenance.ts:160-172 | behind padding, as headers are written, every blank value is read as one whitespace character |
| HeaderText.EmptyReadsAsSpace | packages/schema/src/migrations/parse-provenance.ts:160-172 | an empty value is read as one space of the padding |
| Stub.AssembleMigrationProvenance | packages/schema/src/migrations/parse-provenance.ts:147-199 | absent, then empty, then unhashed fields are refused, in field order |
| Stub.ParsedIsClean | packages/schema/src/migrations/parse-provenance.ts:82-199 | whatever the parser accepts has clean fields, and hashes where hashes belong |
| Stub.StubRoundTripIffClean | packages/schema/src/migrations/stub.ts:161-225 | the text of a stub parses to all nine fields if and only if each is clean and each hash is one |
| Stub.StubReadsAs | packages/schema/src/migrations/parse-provenance.ts:82-199 | a stub whose values stay on their lines parses to what those lines read as, clean or not |
| Stub.BlankIdIsAccepted | packages/schema/src/migrations/parse-provenance.ts:160-172 | a stub with a blank id is not refused: it parses, with an id of one whitespace character |
| MigrationIndex.BuildMigrationRegistry | packages/schema/src/migrations/build-migration-registry.ts:59-116 | the three-level maps and the issues, file by file |
| MigrationIndex.IndexFindsFirst | packages/schema/src/migrations/build-migration-registry.ts:59-116 | every entry sits under its own triple, and a lookup finds the first file that declared it |
| MigrationIndex.NoIssuesIffLoadable | packages/schema/src/migrations/build-migration-registry.ts:59-116 | no issue if and only if every file parses and no triple is declared twice |
| MigrationIndex.CurrentHeaderIsBound | packages/schema/src/migrations/verify-provenance.ts:120-151 | among any files, one with a current header whose triple no other declares is found under its triple and verifies as bound |
| MigrationIndex.StubIsBound | packages/schema/src/migrations/stub.ts:52-93 | a stub of registered versions with clean ids and versions, among any files that do not declare its triple, parses, loads under its triple and verifies as bound against the same registry |
| MigrationIndex.OneFileIsBound | packages/schema/src/migrations/build-migration-registry.ts:59-116 | alone, it loads without an issue and the index holds nothing else |
| ArtifactReading.HeaderRecords | packages/schema/src/generators/header.ts:45-75 | a header records the fields the provenance has and no others, each under its label, where they are clean |
| Artifacts.ReadBlockFields | packages/schema/src/registry/parse-provenance.ts:117-173 | strings as they are, null as the text `null`, an absent key as no field, anything else refused |
| ArtifactReading.HeaderRoundTripIffClean | packages/schema/src/registry/parse-provenance.ts:70-230 | a generated header reads back as its provenance if and only if its fields are clean, no id or version is the text `null`, and the hashes are hashes |
| ArtifactReading.JsonRoundTripIffNameable | packages/schema/src/registry/parse-provenance.ts:117-230 | in a JSON artifact clean text is not needed: only that no id or version is the text `null`, and hashes are hashes |
| ArtifactCheck.BuildRegistry | packages/schema/src/registry/build-registry.ts:56-109 | the nested maps and the duplicates; duplicates fail |
| ArtifactCheck.NoDuplicatesIffKeysDistinct | packages/schema/src/registry/build-registry.ts:56-109 | no duplicate is reported if and only if no two named schemas share id and version |
| ArtifactCheck.NamedAreFound | packages/schema/src/registry/build-registry.ts:156-167 | without duplicates every named schema is found under its own id and version |
| ArtifactCheck.Generate | packages/schema/src/registry/handlers/generate.ts:90-119 | the artifacts of every named schema of every file, in each of the four kinds, in order |
| ArtifactCheck.FourForEachSchema | packages/schema/src/registry/handlers/generate.ts:83-119 | four artifacts for each named schema |
| ArtifactCheck.CheckHandler | packages/schema/src/registry/handlers/check.ts:68-85 | all verdicts, or all issues if there is one, in order |
| ArtifactCheck.NoIssuesIffJudged | packages/schema/src/registry/handlers/check.ts:68-85 | no issue if and only if every artifact can be judged |
| ArtifactCheck.VerdictsInOrder | packages/schema/src/registry/handlers/check.ts:68-85 | without issues there is a verdict on each artifact, in order |
| ArtifactCheck.ArtifactReadsBack | packages/schema/src/registry/handlers/generate.ts:193-209 | every artifact of a carried schema reads back with the provenance it was given, in both carriers |
| ArtifactCheck.VerdictTellsWhatMoved | packages/schema/src/registry/handlers/check.ts:153-180 | a committed artifact checked against a later registry: the verdict says exactly which of the two hashes moved |
| ArtifactCheck.GenerateThenCheckIsClean | packages/schema/src/registry/handlers/check.ts:68-151 | whenever registering succeeds, and ids and versions are clean and not the text `null`, checking everything generated from the same entries has no issue and only clean verdicts |
| Composition.Build | packages/schema/src/builders/object.ts:28-283 | every schema reachable by any calls, merges of reachable schemas included, keeps its node fields equal to the nodes of its shape, each key once, and so do the schemas inside it at every level |
| Composition.Pick | packages/schema/src/builders/object.ts:108-120 | the marked keys in mask order, or an error for a key the schema lacks |
| Composition.Omit | packages/schema/src/builders/object.ts:125-137 | the unmarked keys in shape order, or an error for a key the schema lacks |
| Composition.Adjust | packages/schema/src/builders/object.ts:147-185 | the affected fields changed, the others kept, in shape order |
| Composition.Merge | packages/schema/src/builders/object.ts:210-256 | field conflicts before policy conflicts; otherwise the merged fields under the resolved policy |
| Composition.MergeFields | packages/schema/src/builders/object.ts:219-236 | the field loop: collisions gathered in order, new fields behind the old ones |
| Composition.Override | packages/schema/src/builders/object.ts:262-282 | replaced fields in place, or an error for a key the schema lacks |
| Composition.OverlaidField | packages/schema/src/builders/object.ts:219-230 | which keys a merge has, and from which side each field comes |
| Composition.MergedIsShape | packages/schema/src/builders/object.ts:210-256 | a merge of two shapes is a shape |
| Composition.PickAndOmitRestore | packages/schema/src/builders/object.ts:108-256 | merging what a mask picks with what it omits succeeds under every conflict and key policy, and restores the fields |
| Composition.RequiredOfPartial | packages/schema/src/builders/object.ts:352-373 | `required` of `partial` is `required`, and `partial` of `required` is `partial`, with the same mask |
| Composition.RequiredNarrowsPartialWidens | packages/schema/src/builders/object.ts:147-185 | what `required` accepts the schema accepts; an object the schema accepts `partial` accepts |

## Left out

- The CLI, lint rules, the config loader, theme tokens and templates: I/O and glue over the operations modelled here.
- Zod itself, patterns, email, uuid and url formats: their operations are taken to mean what the IR semantics says, with
  uninterpreted predicates for patterns and formats.
- Floating point: numbers are reals, so NaN, the infinities, -0 and rounding in `multipleOf` are not modelled; in JSON
  documents a number is the text it is printed as.
- The kinds `date`, `union`, `recursiveRef` and `transform`, runtime refinements and literals that are no primitives: the
  modelled operations throw on them or pass them by.
- Object keys that JavaScript treats specially (`__proto__`, inherited names, integer-like keys, which it enumerates
  first) and characters outside Unicode scalar values.
- Comparing two compound defaults: the code compares their JSON text, so key order counts; the model compares values.
- SHA-256, UUIDs and the hashing of sources: hashes are texts that are given.
- Issue messages, their metadata and suggested paths and slugs; of artifacts, the generated code itself is a given text.
- `compareSemver` and lookups without a version; every lookup here names its version.
- Transforms with side effects: a transform gives a value or throws. Adapters that throw after their effect took place:
  an outcome is one of working, throwing without effect, or a process that dies before or after the effect.
- Timestamps, `recordKey`, error messages and chain entries in audit entries: in JSONL lines they are further properties
  with any content.
- Record indexes in JSONL text that are no plain decimals: such a line is malformed in the model, while the code would
  take `1e3` for 1000; the adapter never writes one. Escaped surrogate pairs in JSON texts are malformed in the model.
- Freezing, `WeakMap` caches and the static types of the builders.
- The Zod source generator, whose output is a given text in an artifact.
- TypeLexing.ReadsBackIffDocsStay: leaves out descriptions that end their comment, show tokens and open another: what then
  reads back depends on those tokens.
- DiffExactness.BoundSeverityIsExact: is about one refinement at a time, and exact for whole bounds where counts are
  bounded, as the code compares 1.2 and 1.5 without rounding; no completeness is claimed for the classifier as a whole.
- DiffExactness.AbsenceSeverityIsExact: is about modifiers without defaults; with one the classifier is cautious, as
  `DefaultOnOptionalIsOvercautious` shows.
- FragmentLimits.OverwritingAgreesIffUpheld: is about bounds of one name; bounds of several names can make up for one
  another, so that the condition is sufficient there and not necessary.
- Jsonl.JsonlAuditLog.Append: does not model an append that writes a part of its line.
