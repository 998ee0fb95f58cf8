/**
 * What one run of the engine does, stated independently of the loops that do
 * it: where reconciliation stops and why, which pending change sets run, what
 * each of them reports and which records reach the ledger.
 */
module EngineProperties {
  import opened Wrappers
  import opened Contexts
  import opened HistoryRecords
  import CS = ChangeSets
  import opened Engine

  // ---------------------------------------------------------------------------
  // Fail-fast application

  /** The position of the first pending change set that fails; |p| when none does. */
  function FirstFailure(p: seq<CS.ChangeSet>): (f: nat)
    ensures f <= |p|
    ensures f < |p| ==> CS.Fails(p[f])
    ensures forall j :: 0 <= j < f ==> !CS.Fails(p[j])
  {
    if p == [] then 0
    else if CS.Fails(p[0]) then 0
    else 1 + FirstFailure(p[1..])
  }

  /**
   * What the engine reports for the i-th pending change set: SKIPPED after the
   * first failure; FAILED without a timestamp when `mutate` threw; otherwise
   * what `mutate` returned, stamped with the i-th clock reading.
   */
  function Expected(p: seq<CS.ChangeSet>, start: Time, i: nat): CS.Result
    requires i < |p|
  {
    if FirstFailure(p) < i then CS.Result(p[i].id, Some(CS.SKIPPED), None)
    else if p[i].mutate.Threw? then CS.Result(p[i].id, Some(CS.FAILED), None)
    else CS.Result(p[i].id, p[i].mutate.status, Some(start + i))
  }

  /**
   * The ledger entry for the i-th pending change set: its own id and
   * checksum, the timestamp of its result, and FAILED exactly when it failed
   * (a null status is recorded as SUCCESS).
   */
  function ExpectedRecord(p: seq<CS.ChangeSet>, start: Time, i: nat): HistoryRecord
    requires i < |p|
  {
    HistoryRecord(
      p[i].id,
      if p[i].mutate.Threw? then None else Some(start + i),
      if CS.Fails(p[i]) then RecordStatus.FAILED else RecordStatus.SUCCESS,
      p[i].checksum)
  }

  /** How many of the first k pending change sets run: up to and including the first failure. */
  function Executed(p: seq<CS.ChangeSet>, k: nat): nat
  {
    if FirstFailure(p) < k then FirstFailure(p) + 1 else k
  }

  /** How often the clock has been read after k steps: once per `mutate` that returned. */
  function Readings(p: seq<CS.ChangeSet>, k: nat): nat
    requires k <= |p|
  {
    if FirstFailure(p) < k && p[FirstFailure(p)].mutate.Threw? then FirstFailure(p) else Executed(p, k)
  }

  /**
   * The state `s` of the application loop after k steps is the one the rules
   * above describe: it has failed exactly when a failing change set lies among
   * the first k; every result is the expected one; one record was saved per
   * executed change set, and the clock was read once per `mutate` that returned.
   */
  predicate Explains(p: seq<CS.ChangeSet>, start: Time, k: nat, s: Progress)
    requires k <= |p|
  {
    && (s.failed <==> FirstFailure(p) < k)
    && |s.results| == k
    && (forall i :: 0 <= i < k ==> s.results[i] == Expected(p, start, i))
    && |s.saved| == Executed(p, k)
    && (forall i :: 0 <= i < |s.saved| ==> s.saved[i] == ExpectedRecord(p, start, i))
    && s.now == start + Readings(p, k)
  }

  /** A step after the first failure only appends SKIPPED. */
  lemma {:induction false} SkippingStep(p: seq<CS.ChangeSet>, start: Time, k: nat, s: Progress)
    requires 0 < k <= |p| && Explains(p, start, k - 1, s) && s.failed
    ensures Explains(p, start, k, Advance(s, p[k - 1]))
  {
    var s' := Advance(s, p[k - 1]);
    assert s'.results[k - 1] == Expected(p, start, k - 1);
  }

  /** A step before any failure runs the change set, reads the clock if it returned, and records it. */
  lemma {:induction false} RunningStep(p: seq<CS.ChangeSet>, start: Time, k: nat, s: Progress)
    requires 0 < k <= |p| && Explains(p, start, k - 1, s) && !s.failed
    ensures Explains(p, start, k, Advance(s, p[k - 1]))
  {
    var f := FirstFailure(p);
    assert k - 1 <= f;
    assert s.now == start + (k - 1);
    var s' := Advance(s, p[k - 1]);
    assert s'.results[k - 1] == Expected(p, start, k - 1);
    assert s'.saved[k - 1] == ExpectedRecord(p, start, k - 1);
    assert CS.Fails(p[k - 1]) <==> f == k - 1;
  }

  /** The application loop after k steps is explained by the rules above. */
  lemma {:induction false} ApplicationSteps(p: seq<CS.ChangeSet>, k: nat, start: Time)
    requires k <= |p|
    ensures Explains(p, start, k, ApplyUpTo(p, k, start))
  {
    if k > 0 {
      ApplicationSteps(p, k - 1, start);
      var s := ApplyUpTo(p, k - 1, start);
      if s.failed {
        SkippingStep(p, start, k, s);
      } else {
        RunningStep(p, start, k, s);
      }
    }
  }

  /**
   * Fail-fast: once a pending change set fails, every later one is reported
   * SKIPPED without a timestamp, its `mutate` never runs and it gets no
   * record; before the failure nothing fails.
   */
  lemma {:induction false} FailFast(p: seq<CS.ChangeSet>, start: Time)
    requires FirstFailure(p) < |p|
    ensures var s := ApplyUpTo(p, |p|, start);
      && s.failed
      && |s.results| == |p|
      && (forall i :: FirstFailure(p) < i < |p| ==> s.results[i] == CS.Result(p[i].id, Some(CS.SKIPPED), None))
      && s.results[FirstFailure(p)].status == Some(CS.FAILED)
      && (forall i :: 0 <= i < FirstFailure(p) ==> s.results[i].status != Some(CS.FAILED))
      && IdsOf(s.saved) == CS.ChangeSetIds(p[..FirstFailure(p) + 1])
  {
    ApplicationSteps(p, |p|, start);
    var s := ApplyUpTo(p, |p|, start);
    var f := FirstFailure(p);
    assert p[f].mutate.Returned? ==> p[f].mutate.status == Some(CS.FAILED);
    forall i | 0 <= i < f ensures s.results[i].status != Some(CS.FAILED) {
      assert !CS.Fails(p[i]);
    }
  }

  /**
   * When no pending change set fails, all of them run, in order, each stamped
   * with its own clock reading, and each gets a SUCCESS record.
   */
  lemma {:induction false} AllSucceed(p: seq<CS.ChangeSet>, start: Time)
    requires FirstFailure(p) == |p|
    ensures var s := ApplyUpTo(p, |p|, start);
      && !s.failed
      && |s.results| == |p|
      && (forall i :: 0 <= i < |p| ==> s.results[i] == CS.Result(p[i].id, p[i].mutate.status, Some(start + i)))
      && |s.saved| == |p|
      && (forall i :: 0 <= i < |p| ==> s.saved[i].status == RecordStatus.SUCCESS)
      && s.now == start + |p|
  {
    ApplicationSteps(p, |p|, start);
    var s := ApplyUpTo(p, |p|, start);
    forall i | 0 <= i < |p|
      ensures s.results[i] == CS.Result(p[i].id, p[i].mutate.status, Some(start + i))
      ensures s.saved[i].status == RecordStatus.SUCCESS
    {
      assert !CS.Fails(p[i]);
    }
  }

  // ---------------------------------------------------------------------------
  // Reconciliation

  /**
   * Position i of the ledger stops reconciliation: no change set is declared
   * there, the ids differ, or the checksums differ and validation is not
   * skipped.
   */
  predicate Divergent(h: seq<HistoryRecord>, c: seq<CS.ChangeSet>, i: nat)
  {
    && i < |h|
    && (|| i >= |c|
        || h[i].id != c[i].id
        || (!c[i].skipChecksumValidation && h[i].checksum != c[i].checksum))
  }

  /** The first ledger position at or after i that stops reconciliation; |h| when none does. */
  function FirstDivergenceFrom(h: seq<HistoryRecord>, c: seq<CS.ChangeSet>, i: nat): (d: nat)
    requires i <= |h|
    ensures i <= d <= |h|
    ensures d < |h| ==> Divergent(h, c, d)
    ensures forall j :: i <= j < d ==> !Divergent(h, c, j)
    decreases |h| - i
  {
    if i == |h| then i
    else if Divergent(h, c, i) then i
    else FirstDivergenceFrom(h, c, i + 1)
  }

  function FirstDivergence(h: seq<HistoryRecord>, c: seq<CS.ChangeSet>): nat
  {
    FirstDivergenceFrom(h, c, 0)
  }

  /** The ledger entries that are SUCCESS, in ledger order. */
  function Succeeded(h: seq<HistoryRecord>): (v: seq<HistoryRecord>)
    ensures |v| <= |h|
  {
    if h == [] then []
    else
      var last := h[|h| - 1];
      Succeeded(h[..|h| - 1]) + (if last.status == RecordStatus.SUCCESS then [last] else [])
  }

  /** The change sets declared at the positions of FAILED ledger entries, in order. */
  function Retried(h: seq<HistoryRecord>, c: seq<CS.ChangeSet>): (t: seq<CS.ChangeSet>)
    requires |h| <= |c|
    ensures |Succeeded(h)| + |t| == |h|
  {
    if h == [] then []
    else
      var n := |h| - 1;
      Retried(h[..n], c) + (if h[n].status == RecordStatus.FAILED then [c[n]] else [])
  }

  /** Extending a ledger prefix by one entry extends exactly one of the two lists. */
  lemma {:induction false} PrefixStep(h: seq<HistoryRecord>, c: seq<CS.ChangeSet>, n: nat)
    requires 0 < n <= |h| && n <= |c|
    ensures Succeeded(h[..n]) ==
      Succeeded(h[..n - 1]) + (if h[n - 1].status == RecordStatus.SUCCESS then [h[n - 1]] else [])
    ensures Retried(h[..n], c) ==
      Retried(h[..n - 1], c) + (if h[n - 1].status == RecordStatus.FAILED then [c[n - 1]] else [])
  {
    assert h[..n][..n - 1] == h[..n - 1];
    assert h[..n][n - 1] == h[n - 1];
  }

  /** Up to the first divergence, reconciliation keeps the SUCCESS entries and re-queues the FAILED ones. */
  lemma {:induction false} AlignedBeforeDivergence(h: seq<HistoryRecord>, c: seq<CS.ChangeSet>, n: nat)
    requires n <= |h| && n <= |c|
    requires forall j :: 0 <= j < n ==> !Divergent(h, c, j)
    ensures n <= Max(|h|, |c|)
    ensures ReconcileUpTo(h, c, n) == Aligned(Succeeded(h[..n]), Retried(h[..n], c))
  {
    if n > 0 {
      AlignedBeforeDivergence(h, c, n - 1);
      assert !Divergent(h, c, n - 1);
      PrefixStep(h, c, n);
    }
  }

  /** Past the end of the ledger, every declared change set is queued. */
  lemma {:induction false} AlignedAfterHistory(h: seq<HistoryRecord>, c: seq<CS.ChangeSet>, n: nat)
    requires |h| <= n <= |c|
    requires FirstDivergence(h, c) == |h|
    ensures ReconcileUpTo(h, c, n) == Aligned(Succeeded(h), Retried(h, c) + c[|h|..n])
  {
    if n == |h| {
      AlignedBeforeDivergence(h, c, n);
      assert h[..n] == h;
    } else {
      AlignedAfterHistory(h, c, n - 1);
      assert c[|h|..n] == c[|h|..n - 1] + [c[n - 1]];
    }
  }

  /**
   * A ledger that nowhere diverges from the declared list reconciles to its
   * SUCCESS entries as verified, and to the change sets of its FAILED entries
   * followed by every change set past its end as pending.
   */
  lemma {:induction false} ReconcileAligned(h: seq<HistoryRecord>, c: seq<CS.ChangeSet>)
    requires FirstDivergence(h, c) == |h|
    ensures |h| <= |c|
    ensures Reconcile(h, c) == Aligned(Succeeded(h), Retried(h, c) + c[|h|..])
  {
    if |c| < |h| {
      assert Divergent(h, c, |c|);
    }
    AlignedAfterHistory(h, c, |c|);
    assert c[|h|..|c|] == c[|h|..];
  }

  /** At the first divergence d, reconciliation stops with what position d shows. */
  lemma {:induction false} DivergesAt(h: seq<HistoryRecord>, c: seq<CS.ChangeSet>, d: nat, start: Time)
    requires d == FirstDivergence(h, c) && d < |h|
    ensures d < Max(|h|, |c|) && d <= |c|
    ensures ReconcileUpTo(h, c, d) == Aligned(Succeeded(h[..d]), Retried(h[..d], c))
    ensures ReconcileUpTo(h, c, d + 1).Diverged?
    ensures RunOn(h, c, start) == Run(ReconcileUpTo(h, c, d + 1).result, [], start)
  {
    if d > 0 {
      assert !Divergent(h, c, d - 1);
    }
    AlignedBeforeDivergence(h, c, d);
    StopsAt(h, c, d, start);
  }

  /**
   * A ledger longer than the declared list, agreeing with it on every declared
   * position, yields MissingChangeSet for its first surplus entry with no
   * change set named; nothing runs and nothing is saved.
   */
  lemma {:induction false} HistoryOutrunsChangeSets(h: seq<HistoryRecord>, c: seq<CS.ChangeSet>, start: Time)
    requires |c| < |h|
    requires forall j :: 0 <= j < |c| ==> !Divergent(h, c, j)
    ensures RunOn(h, c, start) ==
      Run(MissingChangeSet(h[|c|].id, h[|c|].checksum, None, None), [], start)
  {
    assert Divergent(h, c, |c|);
    DivergesAt(h, c, FirstDivergence(h, c), start);
  }

  /**
   * The first position whose ids differ, with agreement before it, yields
   * MissingChangeSet naming both entries; nothing runs and nothing is saved.
   */
  lemma {:induction false} IdMismatch(h: seq<HistoryRecord>, c: seq<CS.ChangeSet>, i: nat, start: Time)
    requires i < |h| && i < |c| && h[i].id != c[i].id
    requires forall j :: 0 <= j < i ==> !Divergent(h, c, j)
    ensures RunOn(h, c, start) ==
      Run(MissingChangeSet(h[i].id, h[i].checksum, Some(c[i].id), c[i].checksum), [], start)
  {
    assert Divergent(h, c, i);
    DivergesAt(h, c, FirstDivergence(h, c), start);
  }

  /**
   * A checksum that changed at a position whose ids agree, with validation on
   * and agreement before it, yields ChecksumMismatch; the change set's
   * checksum fills the history-checksum slot and the ledger's the
   * change-set-checksum slot. Nothing runs and nothing is saved.
   */
  lemma {:induction false} ChecksumDrift(h: seq<HistoryRecord>, c: seq<CS.ChangeSet>, i: nat, start: Time)
    requires i < |h| && i < |c| && h[i].id == c[i].id
    requires !c[i].skipChecksumValidation && h[i].checksum != c[i].checksum
    requires forall j :: 0 <= j < i ==> !Divergent(h, c, j)
    ensures RunOn(h, c, start) ==
      Run(ChecksumMismatch(h[i].id, c[i].checksum, Some(c[i].id), h[i].checksum), [], start)
  {
    assert Divergent(h, c, i);
    DivergesAt(h, c, FirstDivergence(h, c), start);
  }

  /** With validation skipped, a position whose ids agree passes whatever the checksums. */
  lemma {:induction false} SkipSuppressesMismatch(h: seq<HistoryRecord>, c: seq<CS.ChangeSet>, i: nat)
    requires i < |h| && i < |c| && h[i].id == c[i].id && c[i].skipChecksumValidation
    requires forall j :: 0 <= j < i ==> !Divergent(h, c, j)
    ensures ReconcileUpTo(h, c, i + 1).Aligned?
  {
    assert !Divergent(h, c, i);
    AlignedBeforeDivergence(h, c, i + 1);
  }

  /**
   * A FAILED ledger entry whose position agrees is re-queued: its change set
   * is pending, after the change sets of earlier FAILED entries.
   */
  lemma {:induction false} FailedEntryIsRetried(h: seq<HistoryRecord>, c: seq<CS.ChangeSet>, i: nat)
    requires i < |h| && i < |c| && h[i].status == RecordStatus.FAILED
    requires forall j :: 0 <= j <= i ==> !Divergent(h, c, j)
    ensures i + 1 <= Max(|h|, |c|)
    ensures ReconcileUpTo(h, c, i + 1).Aligned?
    ensures ReconcileUpTo(h, c, i + 1).toApply == Retried(h[..i], c) + [c[i]]
    ensures ReconcileUpTo(h, c, i + 1).verified == Succeeded(h[..i])
  {
    AlignedBeforeDivergence(h, c, i);
    AlignedBeforeDivergence(h, c, i + 1);
    assert h[..i + 1][..i] == h[..i];
  }

  /**
   * A run on a ledger that nowhere diverges reports the SUCCESS entries as
   * ALREADY_APPLIED with their own timestamps, then one result per pending
   * change set; the result lists as many entries as change sets were declared,
   * and it is Success exactly when no pending change set failed.
   */
  lemma {:induction false} AlignedRun(h: seq<HistoryRecord>, c: seq<CS.ChangeSet>, start: Time)
    requires FirstDivergence(h, c) == |h|
    ensures |h| <= |c|
    ensures var p := Retried(h, c) + c[|h|..];
      var run := RunOn(h, c, start);
      && (run.result.Success? <==> FirstFailure(p) == |p|)
      && (run.result.Success? || run.result.ApplicationFailed?)
      && |run.result.changeSetResults| == |c|
      && run.result.changeSetResults[..|Succeeded(h)|] == AlreadyApplied(Succeeded(h))
      && (forall i :: 0 <= i < |p| ==> run.result.changeSetResults[|Succeeded(h)| + i] == Expected(p, start, i))
  {
    AlignedShape(h, c, start);
    var p := Retried(h, c) + c[|h|..];
    var s := ApplyUpTo(p, |p|, start);
    ApplicationSteps(p, |p|, start);
    AssembledRun(Succeeded(h), p, start, s, RunOn(h, c, start).result);
  }

  /**
   * A run on a ledger that nowhere diverges saves one record per executed
   * pending change set, in order.
   */
  lemma {:induction false} AlignedSaved(h: seq<HistoryRecord>, c: seq<CS.ChangeSet>, start: Time)
    requires FirstDivergence(h, c) == |h|
    ensures |h| <= |c|
    ensures var p := Retried(h, c) + c[|h|..];
      var run := RunOn(h, c, start);
      && |run.saved| == Executed(p, |p|)
      && (forall i :: 0 <= i < |run.saved| ==> run.saved[i] == ExpectedRecord(p, start, i))
  {
    AlignedShape(h, c, start);
    var p := Retried(h, c) + c[|h|..];
    ApplicationSteps(p, |p|, start);
  }

  /** On a ledger that nowhere diverges, a run applies the retried and the new change sets. */
  lemma {:induction false} AlignedShape(h: seq<HistoryRecord>, c: seq<CS.ChangeSet>, start: Time)
    requires FirstDivergence(h, c) == |h|
    ensures |h| <= |c|
    ensures var p := Retried(h, c) + c[|h|..];
      var s := ApplyUpTo(p, |p|, start);
      && |Succeeded(h)| + |p| == |c|
      && RunOn(h, c, start) == Run(Assemble(Succeeded(h), !s.failed, s.results), s.saved, s.now)
  {
    ReconcileAligned(h, c);
  }

  /** The result assembled from an explained application of `p`. */
  lemma {:induction false} AssembledRun(
    v: seq<HistoryRecord>, p: seq<CS.ChangeSet>, start: Time, s: Progress, r: Result)
    requires Explains(p, start, |p|, s)
    requires r == Assemble(v, !s.failed, s.results)
    ensures
      && (r.Success? <==> FirstFailure(p) == |p|)
      && (r.Success? || r.ApplicationFailed?)
      && |r.changeSetResults| == |v| + |p|
      && r.changeSetResults[..|v|] == AlreadyApplied(v)
      && (forall i :: 0 <= i < |p| ==> r.changeSetResults[|v| + i] == Expected(p, start, i))
  {
    forall i | 0 <= i < |p| ensures r.changeSetResults[|v| + i] == Expected(p, start, i) {
      assert r.changeSetResults[|v| + i] == r.changeSetResults[|v|..][i];
    }
  }
}
