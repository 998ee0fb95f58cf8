# Schema migration engine — a Dafny model

This project models the core of a schema-migration library. A migration is an
ordered list of *change sets*. Each one has an id, an optional checksum, a flag
that switches checksum validation off, and a `mutate` action run against the
target system. A *history source* keeps a ledger of `HistoryRecord`s: id,
execution time, `SUCCESS`/`FAILED` and checksum.

`Schema.apply` runs in three stages:

1. **Reconciliation.** It walks the ledger and the declared list position by
   position and stops at the first structural divergence:
   - a surplus ledger entry, or an id mismatch, gives `MissingChangeSet`;
   - a checksum change while validation is on gives `ChecksumMismatch`.
2. **Fail-fast application.** It re-queues the change sets of `FAILED` entries
   and every change set past the end of the ledger. It runs them in order until
   one fails; the rest are reported `SKIPPED`. It saves one record per executed
   change set.
3. **Assembly.** The result lists the verified entries as `ALREADY_APPLIED`,
   then the application results, wrapped in `Success` or `ApplicationFailed`.

Modules:

- `Wrappers`: `Option`, Java's null.
- `Contexts`: the context class. Its clock is a counter read with `Instant`. It
  keeps a log of the change sets whose `mutate` ran.
- `HistoryRecords`: the ledger entry.
- `ChangeSets`: a change set, `apply`, `Result` and its equality, and `Status`.
- `HistorySources`: the core in-memory history source, a `LinkedHashMap` kept as
  a key order plus a map. It is proved to behave as the list function `Upsert`.
- `LegacyHistorySources`: the older append-only source at the repository root.
- `Engine`:
  - the `Schema` class, with `Apply` and `ApplyAndSaveRecords` as loops;
  - the pure functions `Reconcile`, `ApplyUpTo` and `RunOn` that state what one
    run computes, against which the loops are proved.
- `EngineProperties`: where reconciliation stops and why, and the fail-fast and
  record-writing rules, stated independently of the loops.
- `LedgerProperties`: the ledger across runs:
  - the engine keeps its own ledger well formed when the declared ids are
    distinct;
  - results come in declaration order;
  - a second run on a settled ledger changes nothing.
- `RerunProperties`: when the declared ids are distinct, a successful run leaves
  any ledger settled, so a second run of the same list changes nothing. With a
  repeated id it does not: `Scenarios.RepeatedIdRunsAgain`.
- `Scenarios`: the engine's test scenarios on concrete data.

Paths below are abbreviated in prose as follows. The table uses full paths.

- `Schema.java`, core `ChangeSet.java` and core `InMemoryHistorySource.java` are
  under `schema-migration-core/src/main/java/dev/vgerasimov/schema_migration/`.
- The root `InMemoryHistorySource.java` is `src/main/java/dev/vgerasimov/InMemoryHistorySource.java`.
- `SchemaTest.java` is under `schema-migration-core/src/test/java/dev/vgerasimov/schema_migration/`.

Where the code and its documentation disagree, the model follows the code:

- `Schema.java` calls `isSkipChecksumValidation()` (line 55) and uses
  `ALREADY_APPLIED` (line 84). Neither exists in the core `ChangeSet.java`, which
  has a one-argument constructor and a three-value `Status`.
  - The model follows `Schema.java` and the tests. A change set carries a
    `skipChecksumValidation` flag, which the tests set exactly when the checksum
    is null (SchemaTest.java:227).
  - `Status` has four values.
- One would expect the results to follow declaration order. The model proves
  this only for well-formed ledgers, not for every ledger where no `SUCCESS`
  entry follows a `FAILED` one.
  - `RunPreservesOrder` proves it for well-formed ledgers: `SUCCESS` entries
    with at most one `FAILED` entry, at the end.
  - These are the ledgers the engine writes when the declared ids are distinct
    (`RunKeepsLedgerWellFormed`). With a repeated id it can write others.
  - On a ledger with a `FAILED` entry before a `SUCCESS` one, the verified entry
    is reported first and the retried one after it. `Scenarios.ResultsCanBeReordered`
    exhibits this.
- `ChecksumMismatch` is built with the change set's checksum in the
  history-checksum slot and the ledger's checksum in the change-set-checksum
  slot (Schema.java:57-61). The model keeps these swapped slots.
- A `mutate` that returns null gives a result with a null status. It is recorded
  as `SUCCESS`, because only `FAILED` is recorded as `FAILED`.

## Model

| member | source | states |
|---|---|---|
| ChangeSets.Apply | schema-migration-core/src/main/java/dev/vgerasimov/schema_migration/ChangeSet.java:18-22 | `apply` yields no result exactly when `mutate` throws; otherwise the result carries the change set's id, exactly the status `mutate` returned (null included) and the clock value given |
| ChangeSets.ApplyTo | schema-migration-core/src/main/java/dev/vgerasimov/schema_migration/ChangeSet.java:18-22 | `mutate` runs against the context first; the clock is read, and advances by one, only when `mutate` returned; the result is `Apply` at the clock value before the call |
| ChangeSets.Equals | schema-migration-core/src/main/java/dev/vgerasimov/schema_migration/ChangeSet.java:63-70 | the null-safe field-wise comparison of status, id and timestamp holds exactly when the two results are the same value |
| Contexts.Context.Instant | schema-migration-core/src/test/java/dev/vgerasimov/schema_migration/SchemaTest.java:253-256 | a clock read returns the current instant and advances the clock by one, touching nothing else |
| Contexts.Context.Mutate | schema-migration-core/src/main/java/dev/vgerasimov/schema_migration/ChangeSet.java:19 | `mutate` runs against the context: its id is logged, after those of the earlier calls, and the clock is not read |
| HistorySources.IndexOf | schema-migration-core/src/main/java/dev/vgerasimov/schema_migration/InMemoryHistorySource.java:20-22 | the lookup of `put` finds the first record with the key, every earlier record having another id, or reports the key absent |
| HistorySources.Upsert | schema-migration-core/src/main/java/dev/vgerasimov/schema_migration/InMemoryHistorySource.java:20-22 | `put` grows the ledger by at most one record; where the record goes is stated by the two lemmas below |
| HistorySources.SaveAll | schema-migration-core/src/main/java/dev/vgerasimov/schema_migration/InMemoryHistorySource.java:20-22 | saving a list of records grows the ledger by at most their number |
| HistorySources.UpsertNewId | schema-migration-core/src/main/java/dev/vgerasimov/schema_migration/InMemoryHistorySource.java:20-22 | saving a record whose id is absent appends it at the end of the history |
| HistorySources.UpsertExistingId | schema-migration-core/src/main/java/dev/vgerasimov/schema_migration/InMemoryHistorySource.java:20-22 | saving a record whose id is present replaces that record at its position and changes no other |
| HistorySources.UpsertSize | schema-migration-core/src/main/java/dev/vgerasimov/schema_migration/InMemoryHistorySource.java:20-22 | the history grows by one record exactly when the saved id is new, and otherwise keeps its size |
| HistorySources.UpsertKeepsIdsDistinct | schema-migration-core/src/main/java/dev/vgerasimov/schema_migration/InMemoryHistorySource.java:20-22 | saving never produces two records with the same id |
| HistorySources.SaveAllFresh | schema-migration-core/src/main/java/dev/vgerasimov/schema_migration/InMemoryHistorySource.java:20-22 | saving records with distinct new ids appends them in save order |
| HistorySources.SaveAllFirst | schema-migration-core/src/main/java/dev/vgerasimov/schema_migration/InMemoryHistorySource.java:20-22 | saving a record and then a list is saving the record followed by the list |
| HistorySources.SaveAllConcat | schema-migration-core/src/main/java/dev/vgerasimov/schema_migration/InMemoryHistorySource.java:20-22 | saving two lists one after the other is saving their concatenation |
| HistorySources.SaveAllExisting | schema-migration-core/src/main/java/dev/vgerasimov/schema_migration/InMemoryHistorySource.java:20-22 | saving records with distinct ids that are all present replaces each matching record in place; the ids, their order and every other record stay as they were |
| HistorySources.PutExisting | schema-migration-core/src/main/java/dev/vgerasimov/schema_migration/InMemoryHistorySource.java:21 | `put` of a present key keeps the map invariant and the key order, and its values become the upserted history |
| HistorySources.PutNew | schema-migration-core/src/main/java/dev/vgerasimov/schema_migration/InMemoryHistorySource.java:21 | `put` of a new key appends it to the key order, keeps the map invariant, and its values become the upserted history |
| HistorySources.ValuesDistinct | schema-migration-core/src/main/java/dev/vgerasimov/schema_migration/InMemoryHistorySource.java:12 | the map's values, in insertion order, carry exactly its keys as ids, so no id occurs twice |
| HistorySources.InMemoryHistorySource.constructor | schema-migration-core/src/main/java/dev/vgerasimov/schema_migration/InMemoryHistorySource.java:12 | a new source has an empty history |
| HistorySources.InMemoryHistorySource.IdsAreDistinct | schema-migration-core/src/main/java/dev/vgerasimov/schema_migration/InMemoryHistorySource.java:12 | the history never holds two records with the same id, and its ids are the map's keys in insertion order |
| HistorySources.InMemoryHistorySource.GetHistory | schema-migration-core/src/main/java/dev/vgerasimov/schema_migration/InMemoryHistorySource.java:15-17 | `getHistory` builds a new list of the values in insertion order and modifies nothing |
| HistorySources.InMemoryHistorySource.SaveRecord | schema-migration-core/src/main/java/dev/vgerasimov/schema_migration/InMemoryHistorySource.java:20-22 | `saveRecord` keeps the map invariant and leaves the history equal to `Upsert` of the old history and the record |
| LegacyHistorySources.InMemoryHistorySource.constructor | src/main/java/dev/vgerasimov/InMemoryHistorySource.java:11 | a new source holds no records |
| LegacyHistorySources.InMemoryHistorySource.GetHistory | src/main/java/dev/vgerasimov/InMemoryHistorySource.java:14-16 | `getHistory` returns the records in save order and modifies nothing |
| LegacyHistorySources.InMemoryHistorySource.SaveRecord | src/main/java/dev/vgerasimov/InMemoryHistorySource.java:19-21 | `saveRecord` appends the record at the end whether or not its id is present; earlier records are unchanged and the count grows by exactly one |
| LegacyHistorySources.SavingTwiceKeepsBoth | src/main/java/dev/vgerasimov/InMemoryHistorySource.java:19-21 | saving two records with one id keeps both, in save order: duplicates are possible |
| Engine.Visit | schema-migration-core/src/main/java/dev/vgerasimov/schema_migration/Schema.java:37-69 | one reconciliation step stops only at a ledger position, with MissingChangeSet or ChecksumMismatch naming the entry; it goes on only where the ids agree and the checksums agree or validation is skipped, and then either keeps a SUCCESS entry as verified or queues the declared change set |
| Engine.ReconcileUpTo | schema-migration-core/src/main/java/dev/vgerasimov/schema_migration/Schema.java:33-70 | after n positions reconciliation has either stopped with a structural divergence, or sorted every position into a verified SUCCESS entry or a queued change set, with n within the declared list |
| Engine.Reconcile | schema-migration-core/src/main/java/dev/vgerasimov/schema_migration/Schema.java:33-70 | a finished reconciliation either diverged, or accounts for every declared change set on a ledger no longer than the list |
| Engine.StaysDiverged | schema-migration-core/src/main/java/dev/vgerasimov/schema_migration/Schema.java:33-70 | once reconciliation has returned a divergence, later positions do not change it |
| Engine.StopsAt | schema-migration-core/src/main/java/dev/vgerasimov/schema_migration/Schema.java:42-62 | a divergence at a position ends the run with that result, nothing saved and the clock untouched |
| Engine.ApplyCatching | schema-migration-core/src/main/java/dev/vgerasimov/schema_migration/Schema.java:101-106 | the result carries the change set's id; it is FAILED exactly when `mutate` throws or returns FAILED, and it is stamped, with the current instant, exactly when `mutate` returns |
| Engine.RecordOf | schema-migration-core/src/main/java/dev/vgerasimov/schema_migration/Schema.java:108-115 | the record carries the change set's id and checksum and the result's timestamp, and is FAILED exactly when the result is |
| Engine.Advance | schema-migration-core/src/main/java/dev/vgerasimov/schema_migration/Schema.java:94-117 | every step adds one result; after a failure the flag stays set, nothing is saved and the clock is not read; before it, the step saves one record and sets the flag exactly when the change set fails |
| Engine.ApplyUpTo | schema-migration-core/src/main/java/dev/vgerasimov/schema_migration/Schema.java:94-117 | after k steps there are k results and at most k saved records, exactly k when nothing failed |
| Engine.AlreadyApplied | schema-migration-core/src/main/java/dev/vgerasimov/schema_migration/Schema.java:78-85 | one ALREADY_APPLIED result per verified entry, with its id and its original timestamp |
| Engine.Assemble | schema-migration-core/src/main/java/dev/vgerasimov/schema_migration/Schema.java:74-87 | the result is Success exactly when application succeeded, ApplicationFailed otherwise, and lists the ALREADY_APPLIED entries first, then the application results unchanged |
| Engine.RunOn | schema-migration-core/src/main/java/dev/vgerasimov/schema_migration/Schema.java:23-88 | a run ending in a divergence saves nothing and leaves the clock alone; one ending in Success or ApplicationFailed had a ledger no longer than the list and reports one result per declared change set; no run saves more records than there are change sets |
| Engine.Schema.constructor | schema-migration-core/src/main/java/dev/vgerasimov/schema_migration/Schema.java:17-20 | the engine is bound to the history source it is given |
| Engine.Schema.Apply | schema-migration-core/src/main/java/dev/vgerasimov/schema_migration/Schema.java:23-88 | a null list raises IllegalArgumentException with the message "Change sets list must not be null" before the history is read, changing nothing; otherwise the result is that of `RunOn` on the old history, the history becomes the old one with the run's records saved in order, and exactly the executed change sets ran, in order |
| Engine.Schema.ApplyAndSaveRecords | schema-migration-core/src/main/java/dev/vgerasimov/schema_migration/Schema.java:90-119 | the loop's flag, results, saved records, clock reads and `mutate` calls are exactly those of `ApplyUpTo` over all pending change sets |
| Engine.Schema.ExecuteAndRecord | schema-migration-core/src/main/java/dev/vgerasimov/schema_migration/Schema.java:100-116 | one executed change set: `apply` with an exception turned into FAILED without a timestamp, and a record of its id, timestamp and checksum saved, FAILED exactly when the result is FAILED |
| EngineProperties.FirstFailure | schema-migration-core/src/main/java/dev/vgerasimov/schema_migration/Schema.java:94-107 | the position of the first pending change set that throws or returns FAILED, with none failing before it |
| EngineProperties.SkippingStep | schema-migration-core/src/main/java/dev/vgerasimov/schema_migration/Schema.java:95-98 | after a failure, a step only appends SKIPPED without a timestamp: no call, no record, no clock read |
| EngineProperties.RunningStep | schema-migration-core/src/main/java/dev/vgerasimov/schema_migration/Schema.java:100-116 | before a failure, a step runs the change set, reads the clock only if `mutate` returned, and saves its record |
| EngineProperties.ApplicationSteps | schema-migration-core/src/main/java/dev/vgerasimov/schema_migration/Schema.java:90-119 | after any number of steps the loop state is explained by the fail-fast rules: failed iff a failure occurred, expected results, one record per executed change set, one clock read per `mutate` that returned |
| EngineProperties.FailFast | schema-migration-core/src/main/java/dev/vgerasimov/schema_migration/Schema.java:94-116 | after the first failure every later change set is SKIPPED without a timestamp and gets no record; nothing fails before it; records are saved exactly for the change sets up to and including it |
| EngineProperties.AllSucceed | schema-migration-core/src/main/java/dev/vgerasimov/schema_migration/Schema.java:90-119 | when nothing fails, every pending change set runs in order, stamped with successive clock readings, and gets a SUCCESS record |
| EngineProperties.Succeeded | schema-migration-core/src/main/java/dev/vgerasimov/schema_migration/Schema.java:64-69 | the SUCCESS entries of a ledger prefix are no more than the prefix |
| EngineProperties.Retried | schema-migration-core/src/main/java/dev/vgerasimov/schema_migration/Schema.java:64-69 | verified entries and retried change sets together account for every ledger position exactly once |
| EngineProperties.PrefixStep | schema-migration-core/src/main/java/dev/vgerasimov/schema_migration/Schema.java:64-69 | extending the ledger prefix by one entry extends exactly one of the verified and retried lists |
| EngineProperties.AlignedBeforeDivergence | schema-migration-core/src/main/java/dev/vgerasimov/schema_migration/Schema.java:33-70 | up to the first divergence, reconciliation keeps the SUCCESS entries as verified and re-queues the change sets of FAILED entries, in ledger order |
| EngineProperties.AlignedAfterHistory | schema-migration-core/src/main/java/dev/vgerasimov/schema_migration/Schema.java:37-40 | past the end of the ledger every declared change set is queued, in order |
| EngineProperties.ReconcileAligned | schema-migration-core/src/main/java/dev/vgerasimov/schema_migration/Schema.java:33-70 | a ledger that nowhere diverges reconciles to its SUCCESS entries, and to the change sets of its FAILED entries followed by every change set past its end |
| EngineProperties.DivergesAt | schema-migration-core/src/main/java/dev/vgerasimov/schema_migration/Schema.java:33-62 | at the first divergent position reconciliation stops, and the run reports that position's result, saves nothing and leaves the clock |
| EngineProperties.HistoryOutrunsChangeSets | schema-migration-core/src/main/java/dev/vgerasimov/schema_migration/Schema.java:42-45 | a ledger longer than the list, agreeing before, yields MissingChangeSet of the first surplus entry with null change-set fields; nothing runs or is saved |
| EngineProperties.IdMismatch | schema-migration-core/src/main/java/dev/vgerasimov/schema_migration/Schema.java:47-53 | the first id mismatch yields MissingChangeSet naming both entries and both checksums; nothing runs or is saved |
| EngineProperties.ChecksumDrift | schema-migration-core/src/main/java/dev/vgerasimov/schema_migration/Schema.java:55-62 | matching ids with validation on and differing checksums yield ChecksumMismatch with the change set's checksum in the history slot and the ledger's in the change-set slot; nothing runs or is saved |
| EngineProperties.SkipSuppressesMismatch | schema-migration-core/src/main/java/dev/vgerasimov/schema_migration/Schema.java:55-56 | with validation skipped, a position whose ids match never stops reconciliation, whatever the checksums |
| EngineProperties.FailedEntryIsRetried | schema-migration-core/src/main/java/dev/vgerasimov/schema_migration/Schema.java:64-67 | a matching FAILED entry puts its change set on the pending list, after those of earlier FAILED entries, and not on the verified list |
| EngineProperties.AlignedRun | schema-migration-core/src/main/java/dev/vgerasimov/schema_migration/Schema.java:72-87 | without divergence the run is Success iff no pending change set fails, reports one result per declared change set: the SUCCESS entries as ALREADY_APPLIED with their timestamps, then the expected application results, and saves the expected records |
| EngineProperties.AlignedShape | schema-migration-core/src/main/java/dev/vgerasimov/schema_migration/Schema.java:33-87 | on a ledger that nowhere diverges, a run assembles the application of the retried change sets followed by those past the ledger's end |
| EngineProperties.AssembledRun | schema-migration-core/src/main/java/dev/vgerasimov/schema_migration/Schema.java:72-87 | an assembled result is Success exactly when no pending change set fails, and lists the verified entries, then one expected result per pending change set |
| EngineProperties.AlignedSaved | schema-migration-core/src/main/java/dev/vgerasimov/schema_migration/Schema.java:90-119 | without divergence the run saves one record per executed pending change set, in order |
| LedgerProperties.AlignedNeverDiverges | schema-migration-core/src/main/java/dev/vgerasimov/schema_migration/Schema.java:42-62 | a ledger that agrees with the list at every position never stops reconciliation |
| LedgerProperties.AllSuccessReconciled | schema-migration-core/src/main/java/dev/vgerasimov/schema_migration/Schema.java:64-69 | a ledger of SUCCESS entries is verified whole and re-queues nothing |
| LedgerProperties.LastRetried | schema-migration-core/src/main/java/dev/vgerasimov/schema_migration/Schema.java:64-67 | a ledger whose only FAILED entry is the last re-queues exactly that entry's change set |
| LedgerProperties.OnlyLastRetried | schema-migration-core/src/main/java/dev/vgerasimov/schema_migration/Schema.java:64-69 | of a ledger whose only FAILED entry is the last, the other entries are verified and exactly the last entry's change set is retried |
| LedgerProperties.WellFormedReconciled | schema-migration-core/src/main/java/dev/vgerasimov/schema_migration/Schema.java:33-70 | a well-formed aligned ledger reconciles to its kept entries as verified and the change sets from the first position not kept as pending |
| LedgerProperties.SavedLedger | schema-migration-core/src/main/java/dev/vgerasimov/schema_migration/InMemoryHistorySource.java:20-22 | when the declared ids are distinct, the run's records replace a FAILED last entry in place and append the rest after the kept entries |
| LedgerProperties.RecordsFrom | schema-migration-core/src/main/java/dev/vgerasimov/schema_migration/Schema.java:107-115 | the saved records carry the ids and checksums of their change sets, all but the last are SUCCESS, and when nothing failed there is one SUCCESS record per change set |
| LedgerProperties.RunKeepsLedgerWellFormed | schema-migration-core/src/main/java/dev/vgerasimov/schema_migration/Schema.java:90-119 | when the declared ids are distinct, a run on a well-formed aligned ledger leaves the kept entries followed by its records, again well formed and aligned, and settled when the run succeeded |
| LedgerProperties.RunPreservesOrder | schema-migration-core/src/main/java/dev/vgerasimov/schema_migration/Schema.java:72-87 | on a well-formed aligned ledger the run ends in Success or ApplicationFailed, and its results name the declared change sets in declaration order |
| LedgerProperties.SettledRunIsNoOp | schema-migration-core/src/test/java/dev/vgerasimov/schema_migration/SchemaTest.java:106-128 | on a settled ledger every change set is ALREADY_APPLIED with its recorded timestamp; nothing runs, nothing is saved and the clock is not read |
| RerunProperties.RetriedAt | schema-migration-core/src/main/java/dev/vgerasimov/schema_migration/Schema.java:64-67 | every retried change set is the one declared at the position of a FAILED entry |
| RerunProperties.RetriedCovers | schema-migration-core/src/main/java/dev/vgerasimov/schema_migration/Schema.java:64-67 | the change set declared at every FAILED entry's position is retried |
| RerunProperties.RetriedUnique | schema-migration-core/src/main/java/dev/vgerasimov/schema_migration/Schema.java:64-67 | distinct declared ids give distinct retried ids |
| RerunProperties.SuccessNeverDiverged | schema-migration-core/src/main/java/dev/vgerasimov/schema_migration/Schema.java:42-62 | a run that ends in Success met no divergence |
| RerunProperties.NeverDivergesAligned | schema-migration-core/src/main/java/dev/vgerasimov/schema_migration/Schema.java:42-62 | a ledger that nowhere diverges agrees with the list in ids at every position, and in checksums where validation is on |
| RerunProperties.SuccessRecords | schema-migration-core/src/main/java/dev/vgerasimov/schema_migration/Schema.java:94-117 | a successful run saves one SUCCESS record per pending change set, in pending order, with its id and checksum |
| RerunProperties.RetriedRecordIds | schema-migration-core/src/main/java/dev/vgerasimov/schema_migration/InMemoryHistorySource.java:20-22 | when the retried change sets have distinct ids, so do their records, and all are present in the ledger |
| RerunProperties.RetriedReplaced | schema-migration-core/src/main/java/dev/vgerasimov/schema_migration/InMemoryHistorySource.java:20-22 | when the declared ids are distinct, saving them leaves a SUCCESS entry for the declared change set at every ledger position: SUCCESS entries stay and FAILED ones are replaced in place |
| RerunProperties.AppendedTail | schema-migration-core/src/main/java/dev/vgerasimov/schema_migration/InMemoryHistorySource.java:20-22 | when the declared ids are distinct, the records of the change sets past the ledger's end are appended and settle the ledger |
| RerunProperties.SavingSettles | schema-migration-core/src/main/java/dev/vgerasimov/schema_migration/Schema.java:90-119 | when the declared ids are distinct, saving the retried records and then the new ones settles an aligned ledger |
| RerunProperties.SuccessSettles | schema-migration-core/src/main/java/dev/vgerasimov/schema_migration/Schema.java:23-119 | on distinct declared ids, a successful run shows the ledger agreed with the list, whatever its shape, and leaves every declared change set with a SUCCESS entry at its own position |
| RerunProperties.RerunIsNoOp | schema-migration-core/src/main/java/dev/vgerasimov/schema_migration/Schema.java:64-69 | when the declared ids are distinct, after a successful run on any ledger, running the same list again reports every change set ALREADY_APPLIED, runs nothing and saves nothing |
| Scenarios.EmptyRun | schema-migration-core/src/test/java/dev/vgerasimov/schema_migration/SchemaTest.java:41-46 | an empty list on an empty ledger gives Success of no results and writes nothing |
| Scenarios.TwoApplied | schema-migration-core/src/test/java/dev/vgerasimov/schema_migration/SchemaTest.java:63-81 | two change sets on an empty ledger are applied at successive instants and both recorded SUCCESS |
| Scenarios.OneInHistory | schema-migration-core/src/test/java/dev/vgerasimov/schema_migration/SchemaTest.java:83-103 | a recorded change set is ALREADY_APPLIED with its old timestamp and the new one is applied and appended |
| Scenarios.TwoInHistory | schema-migration-core/src/test/java/dev/vgerasimov/schema_migration/SchemaTest.java:105-128 | a fully recorded list is reported ALREADY_APPLIED throughout; nothing runs or is saved |
| Scenarios.SecondThrows | schema-migration-core/src/test/java/dev/vgerasimov/schema_migration/SchemaTest.java:130-157 | a throwing change set is FAILED without a timestamp and recorded FAILED, the next is SKIPPED, and the clock is never read |
| Scenarios.SecondReturnsFailed | schema-migration-core/src/test/java/dev/vgerasimov/schema_migration/SchemaTest.java:159-181 | a change set returning FAILED keeps its timestamp and is recorded FAILED, and the next is SKIPPED |
| Scenarios.FailedRestarted | schema-migration-core/src/test/java/dev/vgerasimov/schema_migration/SchemaTest.java:183-208 | a FAILED entry is re-run and its record replaced in place by a SUCCESS one; the next change set is appended after it |
| Scenarios.ResultsCanBeReordered | schema-migration-core/src/main/java/dev/vgerasimov/schema_migration/Schema.java:64-87 | on a ledger with a FAILED entry before a SUCCESS one, the results are not in declaration order |
| Scenarios.RepeatedIdRunsAgain | schema-migration-core/src/main/java/dev/vgerasimov/schema_migration/Schema.java:33-69 | nothing checks that declared ids are distinct: with [A, A] a successful run on an empty ledger leaves one entry for A, and a second run verifies it at position 0 and runs the second A again, saving a new record |

## Left out

- The `HistorySource` and `Context` interfaces, in both modules, are not modelled as such. The engine is tied to the core in-memory source, and the context is a counter clock plus a log of `mutate` calls.
- The `HistorySource` promise that history comes ascending by id is a documentation-only contract. The engine never relies on it, and string ordering is not modelled.
- `java.time` is not modelled: there is no date arithmetic or time zone. An instant is a natural number.
- `ChecksumCalculator.java` is not part of this model. The engine only compares checksums, as optional strings.
- `MigrationResult.java` is not part of this model; `Schema` does not use it.
- The commercetools history source, context and change sets are not part of this model. They consist of GraphQL and JSON I/O over the commercetools client library.
  - Their one observable effect on the engine, a `mutate` that returns null, is modelled as a null status that is recorded as `SUCCESS`.
- The root `ChangeSet.java`, `HistoryRecord.java`, `Context.java` and `HistorySource.java` are not part of this model. They are superseded copies of the core types.
  - `LegacyHistorySources` gives the root record only the fields it shows.
- What `mutate` does to the target system is left out. It is caller code, so a change set carries only how its call ends (a status, null, or an exception), and the context logs which ids ran.
- Engine.ApplyCatching: `Threw` stands for an `Exception`, which `Schema.java:103` catches. A `java.lang.Error` thrown by `mutate` escapes that catch and ends the run with no result, after the earlier records were saved; this is not modelled.
- Exceptions thrown by `getHistory` or `saveRecord` are not modelled, because I/O failures of a history source are not modelled.
- LegacyHistorySources.InMemoryHistorySource.GetHistory: returns the stored records as a value. In the source the caller receives the very list the source keeps, so a caller that changes that list changes the source; this aliasing is not captured.
- `ChangeSet.getId` is not modelled as an operation: `id` is an immutable datatype field, so it is fixed at construction.
- HistoryRecords.RecordStatus: a null ledger status is not modelled. `HistoryRecord` accepts one and the history source stores it; `Schema.java:64` treats it as not `FAILED`, so such an entry whose id and checksum agree would be verified and reported `ALREADY_APPLIED`. The engine itself never writes one (`RecordOf` always chooses `SUCCESS` or `FAILED`).
- LedgerProperties.RunPreservesOrder: proved for well-formed ledgers only, with at most one `FAILED` entry. A ledger with several `FAILED` entries at its end and no `SUCCESS` entry after them should also keep declaration order; that is not proved.
- `Schema.apply` takes the list of change sets as `Option` to model a null list. Null elements inside the list, and a null id, are not modelled.
