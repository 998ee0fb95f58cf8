/**
 * The engine's test scenarios, on concrete ledgers and change sets. The clock
 * starts at T; ledger entries written by earlier runs carry earlier instants.
 */
module Scenarios {
  import opened Wrappers
  import opened Contexts
  import opened HistoryRecords
  import CS = ChangeSets
  import opened HistorySources
  import opened Engine
  import opened LedgerProperties

  const T: Time := 10

  /** A change set whose checksum is its id, so its checksum is validated. */
  function Declared(id: string, mutate: CS.MutateOutcome): CS.ChangeSet
  {
    CS.ChangeSet(id, Some(id), false, mutate)
  }

  function Applies(id: string): CS.ChangeSet
  {
    Declared(id, CS.Returned(Some(CS.APPLIED)))
  }

  function Entry(id: string, at: Option<Time>, status: RecordStatus): HistoryRecord
  {
    HistoryRecord(id, at, status, Some(id))
  }

  /** An empty list on an empty ledger succeeds with no results and writes nothing. */
  lemma EmptyRun()
    ensures RunOn([], [], T) == Run(Success([]), [], T)
  {
    var h: seq<HistoryRecord> := [];
    var c: seq<CS.ChangeSet> := [];
    assert Max(|h|, |c|) == 0;
    assert Reconcile(h, c) == Aligned([], []);
    assert ApplyUpTo([], 0, T) == Progress(false, [], [], T);
    assert AlreadyApplied([]) == [];
    assert RunOn(h, c, T) == Run(Assemble([], true, []), [], T);
    assert Assemble([], true, []) == Success([]);
  }

  /** Two change sets on an empty ledger both run, stamped T and T+1, and both are recorded. */
  lemma TwoApplied()
    ensures var run := RunOn([], [Applies("1"), Applies("2")], T);
      && run.result == Success([
           CS.Result("1", Some(CS.APPLIED), Some(T)),
           CS.Result("2", Some(CS.APPLIED), Some(T + 1))])
      && SaveAll([], run.saved) == [
           Entry("1", Some(T), RecordStatus.SUCCESS),
           Entry("2", Some(T + 1), RecordStatus.SUCCESS)]
  {
    var h: seq<HistoryRecord> := [];
    var c := [Applies("1"), Applies("2")];
    assert ReconcileUpTo(h, c, 1) == Aligned([], [c[0]]);
    assert ReconcileUpTo(h, c, 2) == Aligned([], c);
    var s1 := ApplyUpTo(c, 1, T);
    assert s1 == Progress(false, [CS.Result("1", Some(CS.APPLIED), Some(T))],
                                 [Entry("1", Some(T), RecordStatus.SUCCESS)], T + 1);
    var s2 := ApplyUpTo(c, 2, T);
    assert s2.saved == s1.saved + [Entry("2", Some(T + 1), RecordStatus.SUCCESS)];
    assert AlreadyApplied(h) == [];
    assert SaveAll(h, s1.saved) == [Entry("1", Some(T), RecordStatus.SUCCESS)];
    assert IndexOf(SaveAll(h, s1.saved), "2") == 1;
  }

  /** A recorded change set is reported ALREADY_APPLIED; the new one runs and is appended. */
  lemma OneInHistory()
    ensures var h := [Entry("1", Some(T - 9), RecordStatus.SUCCESS)];
      var run := RunOn(h, [Applies("1"), Applies("2")], T);
      && run.result == Success([
           CS.Result("1", Some(CS.ALREADY_APPLIED), Some(T - 9)),
           CS.Result("2", Some(CS.APPLIED), Some(T))])
      && SaveAll(h, run.saved) == h + [Entry("2", Some(T), RecordStatus.SUCCESS)]
  {
    var h := [Entry("1", Some(T - 9), RecordStatus.SUCCESS)];
    var c := [Applies("1"), Applies("2")];
    assert ReconcileUpTo(h, c, 1) == Aligned(h, []);
    assert ReconcileUpTo(h, c, 2) == Aligned(h, [c[1]]);
    assert ApplyUpTo([c[1]], 0, T) == Progress(false, [], [], T);
    var s1 := ApplyUpTo([c[1]], 1, T);
    assert s1 == Progress(false, [CS.Result("2", Some(CS.APPLIED), Some(T))],
                                 [Entry("2", Some(T), RecordStatus.SUCCESS)], T + 1);
    assert AlreadyApplied(h) == [CS.Result("1", Some(CS.ALREADY_APPLIED), Some(T - 9))];
    assert IndexOf(h, "2") == 1;
  }

  /** Two SUCCESS entries matching both change sets: both are ALREADY_APPLIED and nothing runs. */
  lemma TwoInHistory()
    ensures var h := [Entry("1", Some(T - 9), RecordStatus.SUCCESS), Entry("2", Some(T - 8), RecordStatus.SUCCESS)];
      var run := RunOn(h, [Applies("1"), Applies("2")], T);
      && run.result == Success([
           CS.Result("1", Some(CS.ALREADY_APPLIED), Some(T - 9)),
           CS.Result("2", Some(CS.ALREADY_APPLIED), Some(T - 8))])
      && run.saved == []
      && run.now == T
  {
    var h := [Entry("1", Some(T - 9), RecordStatus.SUCCESS), Entry("2", Some(T - 8), RecordStatus.SUCCESS)];
    var c := [Applies("1"), Applies("2")];
    assert ReconcileUpTo(h, c, 1) == Aligned([h[0]], []);
    assert ReconcileUpTo(h, c, 2) == Aligned(h, []);
    assert ApplyUpTo([], 0, T) == Progress(false, [], [], T);
    assert AlreadyApplied(h) == [CS.Result("1", Some(CS.ALREADY_APPLIED), Some(T - 9)),
                                 CS.Result("2", Some(CS.ALREADY_APPLIED), Some(T - 8))];
  }

  /**
   * The second change set throws: it is reported FAILED without a timestamp and
   * recorded FAILED, the third is SKIPPED and never runs, and the clock is
   * never read.
   */
  lemma SecondThrows()
    ensures var h := [Entry("1", Some(T - 9), RecordStatus.SUCCESS)];
      var c := [Applies("1"), Declared("2", CS.Threw), Applies("3")];
      var run := RunOn(h, c, T);
      && run.result == ApplicationFailed([
           CS.Result("1", Some(CS.ALREADY_APPLIED), Some(T - 9)),
           CS.Result("2", Some(CS.FAILED), None),
           CS.Result("3", Some(CS.SKIPPED), None)])
      && SaveAll(h, run.saved) == h + [Entry("2", None, RecordStatus.FAILED)]
      && run.now == T
  {
    var h := [Entry("1", Some(T - 9), RecordStatus.SUCCESS)];
    var c := [Applies("1"), Declared("2", CS.Threw), Applies("3")];
    assert ReconcileUpTo(h, c, 1) == Aligned(h, []);
    assert ReconcileUpTo(h, c, 2) == Aligned(h, [c[1]]);
    assert ReconcileUpTo(h, c, 3) == Aligned(h, [c[1], c[2]]);
    var p := [c[1], c[2]];
    assert ApplyUpTo(p, 1, T) == Progress(true, [CS.Result("2", Some(CS.FAILED), None)],
                                          [Entry("2", None, RecordStatus.FAILED)], T);
    assert ApplyUpTo(p, 2, T) == Progress(true, [CS.Result("2", Some(CS.FAILED), None),
                                                 CS.Result("3", Some(CS.SKIPPED), None)],
                                          [Entry("2", None, RecordStatus.FAILED)], T);
    assert AlreadyApplied(h) == [CS.Result("1", Some(CS.ALREADY_APPLIED), Some(T - 9))];
    assert IndexOf(h, "2") == 1;
  }

  /**
   * The second change set returns FAILED: it keeps its timestamp and is
   * recorded FAILED, and the third is SKIPPED.
   */
  lemma SecondReturnsFailed()
    ensures var h := [Entry("1", Some(T - 9), RecordStatus.SUCCESS)];
      var c := [Applies("1"), Declared("2", CS.Returned(Some(CS.FAILED))), Applies("3")];
      var run := RunOn(h, c, T);
      && run.result == ApplicationFailed([
           CS.Result("1", Some(CS.ALREADY_APPLIED), Some(T - 9)),
           CS.Result("2", Some(CS.FAILED), Some(T)),
           CS.Result("3", Some(CS.SKIPPED), None)])
      && SaveAll(h, run.saved) == h + [Entry("2", Some(T), RecordStatus.FAILED)]
      && run.now == T + 1
  {
    var h := [Entry("1", Some(T - 9), RecordStatus.SUCCESS)];
    var c := [Applies("1"), Declared("2", CS.Returned(Some(CS.FAILED))), Applies("3")];
    assert ReconcileUpTo(h, c, 1) == Aligned(h, []);
    assert ReconcileUpTo(h, c, 2) == Aligned(h, [c[1]]);
    assert ReconcileUpTo(h, c, 3) == Aligned(h, [c[1], c[2]]);
    var p := [c[1], c[2]];
    assert ApplyUpTo(p, 1, T) == Progress(true, [CS.Result("2", Some(CS.FAILED), Some(T))],
                                          [Entry("2", Some(T), RecordStatus.FAILED)], T + 1);
    assert ApplyUpTo(p, 2, T) == Progress(true, [CS.Result("2", Some(CS.FAILED), Some(T)),
                                                 CS.Result("3", Some(CS.SKIPPED), None)],
                                          [Entry("2", Some(T), RecordStatus.FAILED)], T + 1);
    assert AlreadyApplied(h) == [CS.Result("1", Some(CS.ALREADY_APPLIED), Some(T - 9))];
    assert IndexOf(h, "2") == 1;
  }

  /**
   * A FAILED entry is re-run: its record is replaced in place by a SUCCESS one
   * and the next change set is appended after it.
   */
  lemma FailedRestarted()
    ensures var h := [Entry("1", Some(T - 9), RecordStatus.SUCCESS), Entry("2", None, RecordStatus.FAILED)];
      var run := RunOn(h, [Applies("1"), Applies("2"), Applies("3")], T);
      && run.result == Success([
           CS.Result("1", Some(CS.ALREADY_APPLIED), Some(T - 9)),
           CS.Result("2", Some(CS.APPLIED), Some(T)),
           CS.Result("3", Some(CS.APPLIED), Some(T + 1))])
      && SaveAll(h, run.saved) == [
           Entry("1", Some(T - 9), RecordStatus.SUCCESS),
           Entry("2", Some(T), RecordStatus.SUCCESS),
           Entry("3", Some(T + 1), RecordStatus.SUCCESS)]
  {
    FailedRestartedReconciles();
    FailedRestartedApplies();
    FailedRestartedSaves();
    var h := [Entry("1", Some(T - 9), RecordStatus.SUCCESS), Entry("2", None, RecordStatus.FAILED)];
    assert AlreadyApplied([h[0]]) == [CS.Result("1", Some(CS.ALREADY_APPLIED), Some(T - 9))];
  }

  lemma FailedRestartedReconciles()
    ensures var h := [Entry("1", Some(T - 9), RecordStatus.SUCCESS), Entry("2", None, RecordStatus.FAILED)];
      var c := [Applies("1"), Applies("2"), Applies("3")];
      Reconcile(h, c) == Aligned([h[0]], [c[1], c[2]])
  {
    var h := [Entry("1", Some(T - 9), RecordStatus.SUCCESS), Entry("2", None, RecordStatus.FAILED)];
    var c := [Applies("1"), Applies("2"), Applies("3")];
    assert ReconcileUpTo(h, c, 1) == Aligned([h[0]], []);
    assert ReconcileUpTo(h, c, 2) == Aligned([h[0]], [c[1]]);
  }

  lemma FailedRestartedApplies()
    ensures ApplyUpTo([Applies("2"), Applies("3")], 2, T) == Progress(
      false,
      [CS.Result("2", Some(CS.APPLIED), Some(T)), CS.Result("3", Some(CS.APPLIED), Some(T + 1))],
      [Entry("2", Some(T), RecordStatus.SUCCESS), Entry("3", Some(T + 1), RecordStatus.SUCCESS)],
      T + 2)
  {
    var p := [Applies("2"), Applies("3")];
    assert ApplyUpTo(p, 1, T) == Progress(
      false, [CS.Result("2", Some(CS.APPLIED), Some(T))], [Entry("2", Some(T), RecordStatus.SUCCESS)], T + 1);
  }

  lemma FailedRestartedSaves()
    ensures var h := [Entry("1", Some(T - 9), RecordStatus.SUCCESS), Entry("2", None, RecordStatus.FAILED)];
      var r2 := Entry("2", Some(T), RecordStatus.SUCCESS);
      var r3 := Entry("3", Some(T + 1), RecordStatus.SUCCESS);
      SaveAll(h, [r2, r3]) == [h[0], r2, r3]
  {
    var h := [Entry("1", Some(T - 9), RecordStatus.SUCCESS), Entry("2", None, RecordStatus.FAILED)];
    var r2 := Entry("2", Some(T), RecordStatus.SUCCESS);
    var r3 := Entry("3", Some(T + 1), RecordStatus.SUCCESS);
    assert IndexOf(h, "2") == 1;
    assert SaveAll(h, [r2]) == [h[0], r2];
    assert IndexOf([h[0], r2], "3") == 2;
    assert [r2, r3][..1] == [r2];
  }

  /**
   * On a ledger whose FAILED entry is not the last one, the results are not in
   * declaration order: the verified entry is reported before the retried one.
   */
  lemma ResultsCanBeReordered()
    ensures var h := [Entry("1", None, RecordStatus.FAILED), Entry("2", Some(T - 9), RecordStatus.SUCCESS)];
      var c := [Applies("1"), Applies("2")];
      && !WellFormedLedger(h)
      && AlignedWith(h, c)
      && RunOn(h, c, T).result.Success?
      && CS.ResultIds(RunOn(h, c, T).result.changeSetResults) == ["2", "1"]
      && CS.ResultIds(RunOn(h, c, T).result.changeSetResults) != CS.ChangeSetIds(c)
  {
    var h := [Entry("1", None, RecordStatus.FAILED), Entry("2", Some(T - 9), RecordStatus.SUCCESS)];
    var c := [Applies("1"), Applies("2")];
    assert ReconcileUpTo(h, c, 1) == Aligned([], [c[0]]);
    assert ReconcileUpTo(h, c, 2) == Aligned([h[1]], [c[0]]);
    assert ApplyUpTo([c[0]], 1, T).results == [CS.Result("1", Some(CS.APPLIED), Some(T))];
    assert AlreadyApplied([h[1]]) == [CS.Result("2", Some(CS.ALREADY_APPLIED), Some(T - 9))];
    assert CS.ChangeSetIds(c)[0] == "1";
  }

  /**
   * With a repeated id, a successful run does not settle the ledger: the
   * second declaration of "A" finds the ledger's only entry taken by the
   * first, so a later run executes it again.
   */
  lemma RepeatedIdRunsAgain()
    ensures var c := [Applies("A"), Applies("A")];
      var first := RunOn([], c, T);
      var h' := SaveAll([], first.saved);
      && !CS.UniqueIds(c)
      && first.result.Success?
      && h' == [Entry("A", Some(T + 1), RecordStatus.SUCCESS)]
      && RunOn(h', c, T + 2).saved == [Entry("A", Some(T + 2), RecordStatus.SUCCESS)]
  {
    var c := [Applies("A"), Applies("A")];
    assert c[0].id == c[1].id;
    RepeatedFirstRun();
    RepeatedSaves();
    RepeatedSecondRun();
  }

  lemma RepeatedFirstRun()
    ensures var run := RunOn([], [Applies("A"), Applies("A")], T);
      && run.result.Success?
      && run.saved == [Entry("A", Some(T), RecordStatus.SUCCESS), Entry("A", Some(T + 1), RecordStatus.SUCCESS)]
  {
    var h: seq<HistoryRecord> := [];
    var c := [Applies("A"), Applies("A")];
    assert ReconcileUpTo(h, c, 1) == Aligned([], [c[0]]);
    assert ReconcileUpTo(h, c, 2) == Aligned([], c);
    assert ApplyUpTo(c, 1, T) == Progress(
      false, [CS.Result("A", Some(CS.APPLIED), Some(T))], [Entry("A", Some(T), RecordStatus.SUCCESS)], T + 1);
  }

  lemma RepeatedSaves()
    ensures SaveAll([], [Entry("A", Some(T), RecordStatus.SUCCESS), Entry("A", Some(T + 1), RecordStatus.SUCCESS)])
      == [Entry("A", Some(T + 1), RecordStatus.SUCCESS)]
  {
    var r1 := Entry("A", Some(T), RecordStatus.SUCCESS);
    var r2 := Entry("A", Some(T + 1), RecordStatus.SUCCESS);
    assert [r1, r2][..1] == [r1];
    assert SaveAll([], [r1]) == [r1];
    assert IndexOf([r1], "A") == 0;
  }

  lemma RepeatedSecondRun()
    ensures RunOn([Entry("A", Some(T + 1), RecordStatus.SUCCESS)], [Applies("A"), Applies("A")], T + 2).saved
      == [Entry("A", Some(T + 2), RecordStatus.SUCCESS)]
  {
    var h := [Entry("A", Some(T + 1), RecordStatus.SUCCESS)];
    var c := [Applies("A"), Applies("A")];
    assert ReconcileUpTo(h, c, 1) == Aligned(h, []);
    assert ReconcileUpTo(h, c, 2) == Aligned(h, [c[1]]);
    assert ApplyUpTo([c[1]], 1, T + 2) == Progress(
      false, [CS.Result("A", Some(CS.APPLIED), Some(T + 2))], [Entry("A", Some(T + 2), RecordStatus.SUCCESS)], T + 3);
  }
}
