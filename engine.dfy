/**
 * The reconciliation-and-application engine (`Schema`): it aligns the ledger
 * with the declared change sets position by position, stops at the first
 * structural divergence, runs the pending change sets fail-fast, records each
 * executed one in the ledger and assembles the run's result.
 *
 * The pure functions below state what one run computes; the class `Schema`
 * does it step by step and is proved to compute exactly that.
 */
module Engine {
  import opened Wrappers
  import opened Contexts
  import opened HistoryRecords
  import CS = ChangeSets
  import opened HistorySources

  /** `Schema.Result`: the four shapes a run can end in. */
  datatype Result =
    | Success(changeSetResults: seq<CS.Result>)
    | ApplicationFailed(changeSetResults: seq<CS.Result>)
    | MissingChangeSet(
        historyRecordId: string,
        historyRecordChecksum: Option<string>,
        changeSetId: Option<string>,
        changeSetChecksum: Option<string>)
    | ChecksumMismatch(
        historyRecordId: string,
        historyRecordChecksum: Option<string>,
        changeSetId: Option<string>,
        changeSetChecksum: Option<string>)

  /** How a call of `apply` ends: with a result, or with an IllegalArgumentException. */
  datatype Call = Done(result: Result) | IllegalArgumentException(message: string)

  const NULL_CHANGE_SETS_MESSAGE := "Change sets list must not be null"

  function Max(a: nat, b: nat): nat
  {
    if a < b then b else a
  }

  // ---------------------------------------------------------------------------
  // Reconciliation

  /** What the reconciliation loop has gathered so far, or the result it stopped with. */
  datatype Reconciliation =
    | Aligned(verified: seq<HistoryRecord>, toApply: seq<CS.ChangeSet>)
    | Diverged(result: Result)

  /** One pass of the reconciliation loop, at position `i`. */
  function Visit(
    h: seq<HistoryRecord>, c: seq<CS.ChangeSet>, i: nat,
    verified: seq<HistoryRecord>, toApply: seq<CS.ChangeSet>): (r: Reconciliation)
    requires i < Max(|h|, |c|)
    ensures r.Diverged? ==>
      && i < |h|
      && (r.result.MissingChangeSet? || r.result.ChecksumMismatch?)
      && r.result.historyRecordId == h[i].id
    ensures r.Aligned? && i < |h| ==>
      && i < |c| && h[i].id == c[i].id
      && (c[i].skipChecksumValidation || h[i].checksum == c[i].checksum)
    ensures r.Aligned? ==>
      || (i < |h| && r.verified == verified + [h[i]] && r.toApply == toApply && h[i].status == RecordStatus.SUCCESS)
      || (r.verified == verified && r.toApply == toApply + [c[i]])
  {
    if i >= |h| then
      Aligned(verified, toApply + [c[i]])
    else if i >= |c| then
      Diverged(MissingChangeSet(h[i].id, h[i].checksum, None, None))
    else if h[i].id != c[i].id then
      Diverged(MissingChangeSet(h[i].id, h[i].checksum, Some(c[i].id), c[i].checksum))
    else if !c[i].skipChecksumValidation && h[i].checksum != c[i].checksum then
      // the two checksums travel in swapped slots, as the source passes them
      Diverged(ChecksumMismatch(h[i].id, c[i].checksum, Some(c[i].id), h[i].checksum))
    else if h[i].status == RecordStatus.FAILED then
      Aligned(verified, toApply + [c[i]])
    else
      assert h[i].status == RecordStatus.SUCCESS;
      Aligned(verified + [h[i]], toApply)
  }

  /** The state of reconciliation after positions 0 .. n-1. */
  function ReconcileUpTo(h: seq<HistoryRecord>, c: seq<CS.ChangeSet>, n: nat): (r: Reconciliation)
    requires n <= Max(|h|, |c|)
    ensures r.Diverged? ==> r.result.MissingChangeSet? || r.result.ChecksumMismatch?
    ensures r.Aligned? ==> n <= |c| && |r.verified| + |r.toApply| == n
    ensures r.Aligned? ==> forall k :: 0 <= k < |r.verified| ==> r.verified[k].status == RecordStatus.SUCCESS
  {
    if n == 0 then Aligned([], [])
    else match ReconcileUpTo(h, c, n - 1)
      case Diverged(r) => Diverged(r)
      case Aligned(verified, toApply) => Visit(h, c, n - 1, verified, toApply)
  }

  function Reconcile(h: seq<HistoryRecord>, c: seq<CS.ChangeSet>): (r: Reconciliation)
    ensures r.Diverged? ==> r.result.MissingChangeSet? || r.result.ChecksumMismatch?
    ensures r.Aligned? ==> |h| <= |c| && |r.verified| + |r.toApply| == |c|
  {
    ReconcileUpTo(h, c, Max(|h|, |c|))
  }

  /** Once reconciliation has stopped, later positions change nothing. */
  lemma {:induction false} StaysDiverged(h: seq<HistoryRecord>, c: seq<CS.ChangeSet>, n: nat, m: nat)
    requires n <= m <= Max(|h|, |c|)
    requires ReconcileUpTo(h, c, n).Diverged?
    ensures ReconcileUpTo(h, c, m) == ReconcileUpTo(h, c, n)
    decreases m - n
  {
    if n < m {
      StaysDiverged(h, c, n + 1, m);
    }
  }

  /** A run whose reconciliation stops at position `i` reports that divergence and saves nothing. */
  lemma StopsAt(h: seq<HistoryRecord>, c: seq<CS.ChangeSet>, i: nat, start: Time)
    requires i < Max(|h|, |c|)
    requires ReconcileUpTo(h, c, i + 1).Diverged?
    ensures RunOn(h, c, start) == Run(ReconcileUpTo(h, c, i + 1).result, [], start)
  {
    StaysDiverged(h, c, i + 1, Max(|h|, |c|));
  }

  // ---------------------------------------------------------------------------
  // Fail-fast application

  /** `apply` with the engine's catch: an exception becomes FAILED without a timestamp. */
  function ApplyCatching(cs: CS.ChangeSet, now: Time): (r: CS.Result)
    ensures r.id == cs.id
    ensures r.status == Some(CS.FAILED) <==> CS.Fails(cs)
    ensures r.executedAt.Some? <==> cs.mutate.Returned?
    ensures r.executedAt.Some? ==> r.executedAt == Some(now)
  {
    match CS.Apply(cs, now)
    case Completed(r) => r
    case Raised => CS.Result(cs.id, Some(CS.FAILED), None)
  }

  function Skipped(cs: CS.ChangeSet): CS.Result
  {
    CS.Result(cs.id, Some(CS.SKIPPED), None)
  }

  /** The ledger entry written for an executed change set. */
  function RecordOf(cs: CS.ChangeSet, r: CS.Result): (rec: HistoryRecord)
    ensures rec.id == cs.id && rec.checksum == cs.checksum && rec.executedAt == r.executedAt
    ensures rec.status == RecordStatus.FAILED <==> r.status == Some(CS.FAILED)
  {
    HistoryRecord(
      cs.id,
      r.executedAt,
      if r.status == Some(CS.FAILED) then RecordStatus.FAILED else RecordStatus.SUCCESS,
      cs.checksum)
  }

  /**
   * The state of `applyAndSaveRecords`: the `failed` flag, the results so far,
   * the records saved so far and the clock.
   */
  datatype Progress = Progress(
    failed: bool,
    results: seq<CS.Result>,
    saved: seq<HistoryRecord>,
    now: Time)

  /** One pass of the application loop. The clock is read only when `mutate` returns. */
  function Advance(s: Progress, cs: CS.ChangeSet): (t: Progress)
    ensures |t.results| == |s.results| + 1
    ensures s.failed ==> t.failed && t.saved == s.saved && t.now == s.now
    ensures !s.failed ==> (t.failed <==> CS.Fails(cs)) && |t.saved| == |s.saved| + 1
  {
    if s.failed then
      s.(results := s.results + [Skipped(cs)])
    else
      var r := ApplyCatching(cs, s.now);
      Progress(
        r.status == Some(CS.FAILED),
        s.results + [r],
        s.saved + [RecordOf(cs, r)],
        if cs.mutate.Returned? then s.now + 1 else s.now)
  }

  /** The state of the application loop after the first `k` pending change sets. */
  function ApplyUpTo(toApply: seq<CS.ChangeSet>, k: nat, start: Time): (p: Progress)
    requires k <= |toApply|
    ensures |p.results| == k
    ensures |p.saved| <= k && (!p.failed ==> |p.saved| == k)
  {
    if k == 0 then Progress(false, [], [], start)
    else Advance(ApplyUpTo(toApply, k - 1, start), toApply[k - 1])
  }

  // ---------------------------------------------------------------------------
  // Assembly

  /** The verified records reported as ALREADY_APPLIED, with their original timestamps. */
  function AlreadyApplied(verified: seq<HistoryRecord>): (rs: seq<CS.Result>)
    ensures |rs| == |verified|
    ensures forall i :: 0 <= i < |rs| ==>
      rs[i].id == verified[i].id && rs[i].status == Some(CS.ALREADY_APPLIED) && rs[i].executedAt == verified[i].executedAt
  {
    seq(|verified|, i requires 0 <= i < |verified| =>
      CS.Result(verified[i].id, Some(CS.ALREADY_APPLIED), verified[i].executedAt))
  }

  function Assemble(verified: seq<HistoryRecord>, succeeded: bool, results: seq<CS.Result>): (r: Result)
    ensures r.Success? <==> succeeded
    ensures r.Success? || r.ApplicationFailed?
    ensures |r.changeSetResults| == |verified| + |results|
    ensures r.changeSetResults[..|verified|] == AlreadyApplied(verified)
    ensures r.changeSetResults[|verified|..] == results
  {
    if succeeded then Success(AlreadyApplied(verified) + results)
    else ApplicationFailed(AlreadyApplied(verified) + results)
  }

  /** Everything one run on a non-null list produces: its result, the records it saved, the clock after it. */
  datatype Run = Run(result: Result, saved: seq<HistoryRecord>, now: Time)

  function RunOn(history: seq<HistoryRecord>, changeSets: seq<CS.ChangeSet>, start: Time): (run: Run)
    ensures run.result.MissingChangeSet? || run.result.ChecksumMismatch? ==> run.saved == [] && run.now == start
    ensures run.result.Success? || run.result.ApplicationFailed? ==>
      |history| <= |changeSets| && |run.result.changeSetResults| == |changeSets|
    ensures |run.saved| <= |changeSets|
  {
    match Reconcile(history, changeSets)
    case Diverged(r) => Run(r, [], start)
    case Aligned(verified, toApply) =>
      var s := ApplyUpTo(toApply, |toApply|, start);
      Run(Assemble(verified, !s.failed, s.results), s.saved, s.now)
  }

  // ---------------------------------------------------------------------------
  // The engine

  class Schema {
    const historySource: InMemoryHistorySource

    constructor (historySource: InMemoryHistorySource)
      ensures this.historySource == historySource
    {
      this.historySource := historySource;
    }

    /**
     * `apply`: a null list is refused before anything is read or written;
     * otherwise one run as `RunOn` describes it, whose records are saved to the
     * history source in order and whose executed change sets ran against the
     * context.
     */
    method Apply(context: Context, changeSets: Option<seq<CS.ChangeSet>>) returns (call: Call)
      requires historySource.Valid()
      modifies historySource, context
      ensures historySource.Valid()
      ensures changeSets.None? ==>
        && call == IllegalArgumentException(NULL_CHANGE_SETS_MESSAGE)
        && unchanged(historySource, context)
      ensures changeSets.Some? ==>
        var run := RunOn(old(historySource.history), changeSets.value, old(context.now));
        && call == Done(run.result)
        && historySource.history == SaveAll(old(historySource.history), run.saved)
        && context.now == run.now
        && context.mutated == old(context.mutated) + IdsOf(run.saved)
    {
      if changeSets.None? {
        return IllegalArgumentException(NULL_CHANGE_SETS_MESSAGE);
      }
      var declared := changeSets.value;
      var history := historySource.GetHistory();
      var verified: seq<HistoryRecord> := [];
      var toApply: seq<CS.ChangeSet> := [];
      var n := Max(|history|, |declared|);
      var i := 0;
      while i < n
        invariant i <= n
        invariant ReconcileUpTo(history, declared, i) == Aligned(verified, toApply)
      {
        assert ReconcileUpTo(history, declared, i + 1) == Visit(history, declared, i, verified, toApply);
        if i >= |history| {
          toApply := toApply + [declared[i]];
        } else if i >= |declared| {
          StopsAt(history, declared, i, context.now);
          return Done(MissingChangeSet(history[i].id, history[i].checksum, None, None));
        } else if history[i].id != declared[i].id {
          StopsAt(history, declared, i, context.now);
          return Done(MissingChangeSet(
            history[i].id, history[i].checksum, Some(declared[i].id), declared[i].checksum));
        } else if !declared[i].skipChecksumValidation && history[i].checksum != declared[i].checksum {
          StopsAt(history, declared, i, context.now);
          return Done(ChecksumMismatch(
            history[i].id, declared[i].checksum, Some(declared[i].id), history[i].checksum));
        } else if history[i].status == RecordStatus.FAILED {
          toApply := toApply + [declared[i]];
        } else {
          verified := verified + [history[i]];
        }
        i := i + 1;
      }
      var succeeded, results := ApplyAndSaveRecords(context, toApply);
      call := Done(Assemble(verified, succeeded, results));
    }

    /**
     * `applyAndSaveRecords`: runs the pending change sets in order until one
     * fails, skips the rest, and saves one record per executed change set.
     */
    method ApplyAndSaveRecords(context: Context, toApply: seq<CS.ChangeSet>)
      returns (succeeded: bool, results: seq<CS.Result>)
      requires historySource.Valid()
      modifies historySource, context
      ensures historySource.Valid()
      ensures
        var s := ApplyUpTo(toApply, |toApply|, old(context.now));
        && succeeded == !s.failed
        && results == s.results
        && historySource.history == SaveAll(old(historySource.history), s.saved)
        && context.now == s.now
        && context.mutated == old(context.mutated) + IdsOf(s.saved)
    {
      results := [];
      var failed := false;
      ghost var start := context.now;
      ghost var ledger := historySource.history;
      ghost var ran := context.mutated;
      ghost var progress := Progress(false, [], [], start);
      for k := 0 to |toApply|
        invariant historySource.Valid()
        invariant progress == ApplyUpTo(toApply, k, start)
        invariant progress.failed == failed && progress.results == results
        invariant progress.now == context.now
        invariant historySource.history == SaveAll(ledger, progress.saved)
        invariant context.mutated == ran + IdsOf(progress.saved)
      {
        var cs := toApply[k];
        if failed {
          results := results + [CS.Result(cs.id, Some(CS.SKIPPED), None)];
        } else {
          var r, record := ExecuteAndRecord(context, cs);
          failed := r.status == Some(CS.FAILED);
          SaveAllLast(ledger, progress.saved, record);
          IdsOfAppend(ran, progress.saved, record);
          results := results + [r];
        }
        progress := Advance(progress, cs);
      }
      succeeded := !failed;
    }

    /**
     * One executed change set: `apply` against the context, the engine's catch
     * turning an exception into FAILED, and the record saved for it.
     */
    method ExecuteAndRecord(context: Context, cs: CS.ChangeSet)
      returns (r: CS.Result, record: HistoryRecord)
      requires historySource.Valid()
      modifies historySource, context
      ensures historySource.Valid()
      ensures r == ApplyCatching(cs, old(context.now))
      ensures record == RecordOf(cs, r)
      ensures historySource.history == Upsert(old(historySource.history), record)
      ensures context.mutated == old(context.mutated) + [cs.id]
      ensures context.now == if cs.mutate.Returned? then old(context.now) + 1 else old(context.now)
    {
      var application := CS.ApplyTo(cs, context);
      r := match application
        case Completed(r) => r
        case Raised => CS.Result(cs.id, Some(CS.FAILED), None);
      record := HistoryRecord(
        cs.id,
        r.executedAt,
        if r.status == Some(CS.FAILED) then RecordStatus.FAILED else RecordStatus.SUCCESS,
        cs.checksum);
      historySource.SaveRecord(record);
    }
  }
}
