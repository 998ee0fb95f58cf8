/**
 * The ledger across runs. When the declared ids are distinct, a ledger the
 * engine itself wrote holds SUCCESS entries followed by at most one FAILED
 * entry, at the end, and agrees with the declared change sets position by
 * position. Runs keep it so and report results in declaration order, and a
 * run on a settled ledger changes nothing.
 */
module LedgerProperties {
  import opened Contexts
  import opened HistoryRecords
  import CS = ChangeSets
  import opened HistorySources
  import opened Engine
  import opened EngineProperties

  /** Every entry but possibly the last is SUCCESS. */
  predicate WellFormedLedger(h: seq<HistoryRecord>)
  {
    forall i :: 0 <= i < |h| - 1 ==> h[i].status == RecordStatus.SUCCESS
  }

  /**
   * The ledger is no longer than the declared list and agrees with it at every
   * position: same id, and same checksum unless validation is skipped.
   */
  predicate AlignedWith(h: seq<HistoryRecord>, c: seq<CS.ChangeSet>)
  {
    && |h| <= |c|
    && forall i :: 0 <= i < |h| ==>
         && h[i].id == c[i].id
         && (c[i].skipChecksumValidation || h[i].checksum == c[i].checksum)
  }

  /** Every declared change set has a SUCCESS entry at its own position. */
  predicate Settled(h: seq<HistoryRecord>, c: seq<CS.ChangeSet>)
  {
    && |h| == |c|
    && AlignedWith(h, c)
    && forall i :: 0 <= i < |h| ==> h[i].status == RecordStatus.SUCCESS
  }

  /** The number of leading entries a run keeps as verified: all but a FAILED last one. */
  function Kept(h: seq<HistoryRecord>): nat
  {
    if |h| > 0 && h[|h| - 1].status == RecordStatus.FAILED then |h| - 1 else |h|
  }

  /** An aligned ledger never stops reconciliation. */
  lemma {:induction false} AlignedNeverDiverges(h: seq<HistoryRecord>, c: seq<CS.ChangeSet>)
    requires AlignedWith(h, c)
    ensures FirstDivergence(h, c) == |h|
  {
    var d := FirstDivergence(h, c);
    if d < |h| {
      assert false;
    }
  }

  /** A ledger of SUCCESS entries is verified whole and re-queues nothing. */
  lemma {:induction false} AllSuccessReconciled(h: seq<HistoryRecord>, c: seq<CS.ChangeSet>)
    requires |h| <= |c|
    requires forall i :: 0 <= i < |h| ==> h[i].status == RecordStatus.SUCCESS
    ensures Succeeded(h) == h
    ensures Retried(h, c) == []
  {
    if h != [] {
      var n := |h| - 1;
      AllSuccessReconciled(h[..n], c);
      assert h[..n] + [h[n]] == h;
    }
  }

  /** Of a ledger whose only FAILED entry is the last, that entry's change set is queued first. */
  lemma {:induction false} LastRetried(h: seq<HistoryRecord>, c: seq<CS.ChangeSet>)
    requires 0 < |h| <= |c|
    requires forall i :: 0 <= i < |h| - 1 ==> h[i].status == RecordStatus.SUCCESS
    requires h[|h| - 1].status == RecordStatus.FAILED
    ensures Succeeded(h) == h[..|h| - 1]
    ensures Retried(h, c) + c[|h|..] == c[|h| - 1..]
  {
    var n := |h| - 1;
    OnlyLastRetried(h, c);
    assert c[n..] == [c[n]] + c[n + 1..];
  }

  /** Of a ledger whose only FAILED entry is the last, exactly that entry's change set is retried. */
  lemma {:induction false} OnlyLastRetried(h: seq<HistoryRecord>, c: seq<CS.ChangeSet>)
    requires 0 < |h| <= |c|
    requires forall i :: 0 <= i < |h| - 1 ==> h[i].status == RecordStatus.SUCCESS
    requires h[|h| - 1].status == RecordStatus.FAILED
    ensures Succeeded(h) == h[..|h| - 1]
    ensures Retried(h, c) == [c[|h| - 1]]
  {
    var n := |h| - 1;
    var front := h[..n];
    assert forall i :: 0 <= i < n ==> front[i].status == RecordStatus.SUCCESS;
    AllSuccessReconciled(front, c);
    assert |Retried(front, c)| == 0;
    assert Succeeded(h) == Succeeded(front);
  }

  /**
   * Of a well-formed ledger, reconciliation verifies the kept entries and
   * re-queues only a FAILED last entry, ahead of the change sets past the end.
   */
  lemma {:induction false} KeptSplit(h: seq<HistoryRecord>, c: seq<CS.ChangeSet>)
    requires WellFormedLedger(h) && |h| <= |c|
    ensures Succeeded(h) == h[..Kept(h)]
    ensures Retried(h, c) + c[|h|..] == c[Kept(h)..]
  {
    if Kept(h) < |h| {
      LastRetried(h, c);
    } else {
      AllSuccessReconciled(h, c);
      assert h[..|h|] == h;
    }
  }

  /**
   * On a well-formed aligned ledger, reconciliation verifies the kept entries
   * and queues every change set from the first position not kept.
   */
  lemma {:induction false} WellFormedReconciled(h: seq<HistoryRecord>, c: seq<CS.ChangeSet>)
    requires WellFormedLedger(h) && AlignedWith(h, c)
    ensures Kept(h) <= |h| <= |c|
    ensures Reconcile(h, c) == Aligned(h[..Kept(h)], c[Kept(h)..])
  {
    AlignedNeverDiverges(h, c);
    ReconcileAligned(h, c);
    KeptSplit(h, c);
  }

  /**
   * Records for the change sets that follow `pre` in the declared list have
   * pairwise distinct ids, none of which occurs in `pre`.
   */
  lemma {:induction false} FreshIds(pre: seq<HistoryRecord>, ws: seq<HistoryRecord>, c: seq<CS.ChangeSet>)
    requires CS.UniqueIds(c) && |pre| + |ws| <= |c|
    requires forall i :: 0 <= i < |pre| ==> pre[i].id == c[i].id
    requires forall j :: 0 <= j < |ws| ==> ws[j].id == c[|pre| + j].id
    ensures DistinctIds(ws)
    ensures forall j :: 0 <= j < |ws| ==> ws[j].id !in IdsOf(pre)
  {
    forall j | 0 <= j < |ws| ensures ws[j].id !in IdsOf(pre) {
      forall i | 0 <= i < |pre| ensures IdsOf(pre)[i] != ws[j].id {
        assert c[i].id != c[|pre| + j].id;
      }
    }
  }

  /** Distinct declared ids make the entries of an aligned ledger distinct. */
  lemma {:induction false} AlignedIdsDistinct(h: seq<HistoryRecord>, c: seq<CS.ChangeSet>)
    requires AlignedWith(h, c) && CS.UniqueIds(c)
    ensures DistinctIds(h)
  {
    forall i, j | 0 <= i < j < |h| ensures h[i].id != h[j].id {
      assert c[i].id != c[j].id;
    }
  }

  /** A record for the id of the last entry takes that entry's place. */
  lemma {:induction false} RetryReplacesLast(pre: seq<HistoryRecord>, last: HistoryRecord, w: HistoryRecord)
    requires DistinctIds(pre + [last]) && w.id == last.id
    ensures Upsert(pre + [last], w) == pre + [w]
  {
    var h := pre + [last];
    UpsertExistingId(h, w, |pre|);
    assert h[|pre| := w] == pre + [w];
  }

  /**
   * Saving records for the change sets after a FAILED last entry: the first
   * replaces that entry, the others are appended.
   */
  lemma {:induction false} SavedAfterRetry(
    pre: seq<HistoryRecord>, last: HistoryRecord, c: seq<CS.ChangeSet>, ws: seq<HistoryRecord>)
    requires CS.UniqueIds(c) && DistinctIds(pre + [last])
    requires |pre| + |ws| <= |c| && |ws| > 0
    requires forall i :: 0 <= i < |pre| ==> pre[i].id == c[i].id
    requires last.id == c[|pre|].id
    requires forall j :: 0 <= j < |ws| ==> ws[j].id == c[|pre| + j].id
    ensures SaveAll(pre + [last], ws) == pre + ws
  {
    var w, rest := ws[0], ws[1..];
    assert ws == [w] + rest;
    RetryReplacesLast(pre, last, w);
    SaveAllFirst(pre + [last], w, rest);
    AppendedAfterRetry(pre, w, rest, c);
  }

  /** After the retried record, the records of later change sets are appended. */
  lemma {:induction false} AppendedAfterRetry(
    pre: seq<HistoryRecord>, w: HistoryRecord, rest: seq<HistoryRecord>, c: seq<CS.ChangeSet>)
    requires CS.UniqueIds(c) && |pre| + 1 + |rest| <= |c|
    requires forall i :: 0 <= i < |pre| ==> pre[i].id == c[i].id
    requires w.id == c[|pre|].id
    requires forall j :: 0 <= j < |rest| ==> rest[j].id == c[|pre| + 1 + j].id
    ensures SaveAll(pre + [w], rest) == pre + ([w] + rest)
  {
    var front := pre + [w];
    assert forall i :: 0 <= i < |front| ==> front[i].id == c[i].id;
    FreshIds(front, rest, c);
    SaveAllFresh(front, rest);
  }

  /** The ledger a run leaves behind: the kept entries, then the records it saved. */
  lemma {:induction false} SavedLedger(h: seq<HistoryRecord>, c: seq<CS.ChangeSet>, ws: seq<HistoryRecord>)
    requires AlignedWith(h, c) && CS.UniqueIds(c)
    requires Kept(h) + |ws| <= |c|
    requires Kept(h) < |h| ==> |ws| > 0
    requires forall j :: 0 <= j < |ws| ==> ws[j].id == c[Kept(h) + j].id
    ensures SaveAll(h, ws) == h[..Kept(h)] + ws
  {
    var k := Kept(h);
    if k < |h| {
      AlignedIdsDistinct(h, c);
      assert h == h[..k] + [h[k]];
      SavedAfterRetry(h[..k], h[k], c, ws);
    } else {
      assert h[..k] == h;
      FreshIds(h, ws, c);
      SaveAllFresh(h, ws);
    }
  }

  /** The entries a run keeps are all SUCCESS and agree with the declared list. */
  lemma {:induction false} KeptEntries(h: seq<HistoryRecord>, c: seq<CS.ChangeSet>)
    requires WellFormedLedger(h) && AlignedWith(h, c)
    ensures Kept(h) <= |h|
    ensures forall i :: 0 <= i < Kept(h) ==> h[i].status == RecordStatus.SUCCESS
    ensures AlignedWith(h[..Kept(h)], c)
  {
  }

  /**
   * On a well-formed aligned ledger a run applies the change sets from the
   * first position not kept, and reports the kept entries before their results.
   */
  lemma {:induction false} RunFromKept(h: seq<HistoryRecord>, c: seq<CS.ChangeSet>, start: Time)
    requires WellFormedLedger(h) && AlignedWith(h, c)
    ensures Kept(h) <= |c|
    ensures var p := c[Kept(h)..];
      var s := ApplyUpTo(p, |p|, start);
      RunOn(h, c, start) == Run(Assemble(h[..Kept(h)], !s.failed, s.results), s.saved, s.now)
  {
    WellFormedReconciled(h, c);
  }

  /**
   * The records saved for the change sets from position k carry their ids
   * and checksums; all but the last are SUCCESS, and when nothing failed all
   * of them are, one per change set.
   */
  lemma {:induction false} RecordsFrom(
    c: seq<CS.ChangeSet>, k: nat, start: Time, ws: seq<HistoryRecord>, succeeded: bool)
    requires k <= |c|
    requires var p := c[k..];
      var s := ApplyUpTo(p, |p|, start);
      ws == s.saved && (succeeded <==> !s.failed)
    ensures k + |ws| <= |c|
    ensures k < |c| ==> |ws| > 0
    ensures forall j :: 0 <= j < |ws| ==> ws[j].id == c[k + j].id && ws[j].checksum == c[k + j].checksum
    ensures forall j :: 0 <= j < |ws| - 1 ==> ws[j].status == RecordStatus.SUCCESS
    ensures succeeded ==> k + |ws| == |c|
    ensures succeeded ==> forall j :: 0 <= j < |ws| ==> ws[j].status == RecordStatus.SUCCESS
  {
    var p := c[k..];
    ApplicationSteps(p, |p|, start);
    var f := FirstFailure(p);
    forall j | 0 <= j < |ws|
      ensures ws[j].id == c[k + j].id && ws[j].checksum == c[k + j].checksum
      ensures j < |ws| - 1 ==> ws[j].status == RecordStatus.SUCCESS
      ensures succeeded ==> ws[j].status == RecordStatus.SUCCESS
    {
      assert ws[j] == ExpectedRecord(p, start, j);
      assert j < f ==> !CS.Fails(p[j]);
    }
  }

  /** Kept SUCCESS entries followed by such records form a well-formed aligned ledger. */
  lemma {:induction false} LedgerAfter(pre: seq<HistoryRecord>, ws: seq<HistoryRecord>, c: seq<CS.ChangeSet>)
    requires |pre| + |ws| <= |c|
    requires forall i :: 0 <= i < |pre| ==> pre[i].status == RecordStatus.SUCCESS
    requires AlignedWith(pre, c)
    requires forall j :: 0 <= j < |ws| ==>
      ws[j].id == c[|pre| + j].id && ws[j].checksum == c[|pre| + j].checksum
    requires forall j :: 0 <= j < |ws| - 1 ==> ws[j].status == RecordStatus.SUCCESS
    ensures WellFormedLedger(pre + ws)
    ensures AlignedWith(pre + ws, c)
  {
    var h := pre + ws;
    forall i | 0 <= i < |h|
      ensures h[i].id == c[i].id
      ensures c[i].skipChecksumValidation || h[i].checksum == c[i].checksum
      ensures i < |h| - 1 ==> h[i].status == RecordStatus.SUCCESS
    {
      if i >= |pre| {
        assert h[i] == ws[i - |pre|];
      }
    }
  }

  /** Kept SUCCESS entries followed by a SUCCESS record for every remaining change set settle the ledger. */
  lemma {:induction false} SettledAfter(pre: seq<HistoryRecord>, ws: seq<HistoryRecord>, c: seq<CS.ChangeSet>)
    requires |pre| + |ws| == |c|
    requires forall i :: 0 <= i < |pre| ==> pre[i].status == RecordStatus.SUCCESS
    requires forall j :: 0 <= j < |ws| ==> ws[j].status == RecordStatus.SUCCESS
    requires AlignedWith(pre + ws, c)
    ensures Settled(pre + ws, c)
  {
    var h := pre + ws;
    forall i | 0 <= i < |h| ensures h[i].status == RecordStatus.SUCCESS {
      if i >= |pre| {
        assert h[i] == ws[i - |pre|];
      }
    }
  }

  /** The result list names the kept entries, then the change sets from position k, in order. */
  lemma {:induction false} ResultsInOrder(pre: seq<HistoryRecord>, c: seq<CS.ChangeSet>, start: Time)
    requires |pre| <= |c|
    requires forall i :: 0 <= i < |pre| ==> pre[i].id == c[i].id
    ensures var p := c[|pre|..];
      CS.ResultIds(AlreadyApplied(pre) + ApplyUpTo(p, |p|, start).results) == CS.ChangeSetIds(c)
  {
    var k := |pre|;
    var p := c[k..];
    ApplicationSteps(p, |p|, start);
    var rs := AlreadyApplied(pre) + ApplyUpTo(p, |p|, start).results;
    forall i | 0 <= i < |c| ensures rs[i].id == c[i].id {
      if i >= k {
        assert rs[i] == Expected(p, start, i - k);
      }
    }
  }

  /**
   * A run on a well-formed ledger aligned with a list of distinct change sets
   * keeps the verified entries, replaces a FAILED last entry in place and
   * appends the rest, so the new ledger is again well formed and aligned; a
   * successful run settles it.
   */
  lemma {:induction false} RunKeepsLedgerWellFormed(h: seq<HistoryRecord>, c: seq<CS.ChangeSet>, start: Time)
    requires WellFormedLedger(h) && AlignedWith(h, c) && CS.UniqueIds(c)
    ensures var run := RunOn(h, c, start);
      var h' := SaveAll(h, run.saved);
      && h' == h[..Kept(h)] + run.saved
      && WellFormedLedger(h')
      && AlignedWith(h', c)
      && (run.result.Success? ==> Settled(h', c))
  {
    var run := RunOn(h, c, start);
    RunRecords(h, c, start);
    LedgerOf(h, c, run.saved, run.result.Success?);
  }

  /**
   * Saving, on a well-formed aligned ledger, records shaped as a run saves
   * them keeps the ledger well formed and aligned, and settles it when every
   * remaining change set was recorded SUCCESS.
   */
  lemma {:induction false} LedgerOf(h: seq<HistoryRecord>, c: seq<CS.ChangeSet>, ws: seq<HistoryRecord>, ok: bool)
    requires WellFormedLedger(h) && AlignedWith(h, c) && CS.UniqueIds(c)
    requires Kept(h) + |ws| <= |c|
    requires Kept(h) < |h| ==> |ws| > 0
    requires forall j :: 0 <= j < |ws| ==>
      ws[j].id == c[Kept(h) + j].id && ws[j].checksum == c[Kept(h) + j].checksum
    requires forall j :: 0 <= j < |ws| - 1 ==> ws[j].status == RecordStatus.SUCCESS
    requires ok ==> Kept(h) + |ws| == |c|
    requires ok ==> forall j :: 0 <= j < |ws| ==> ws[j].status == RecordStatus.SUCCESS
    ensures SaveAll(h, ws) == h[..Kept(h)] + ws
    ensures WellFormedLedger(h[..Kept(h)] + ws)
    ensures AlignedWith(h[..Kept(h)] + ws, c)
    ensures ok ==> Settled(h[..Kept(h)] + ws, c)
  {
    SavedLedger(h, c, ws);
    KeptLedger(h, c, ws, ok);
  }

  /** The kept entries followed by records shaped as a run saves them form a well-formed aligned ledger. */
  lemma {:induction false} KeptLedger(h: seq<HistoryRecord>, c: seq<CS.ChangeSet>, ws: seq<HistoryRecord>, ok: bool)
    requires WellFormedLedger(h) && AlignedWith(h, c)
    requires Kept(h) + |ws| <= |c|
    requires forall j :: 0 <= j < |ws| ==>
      ws[j].id == c[Kept(h) + j].id && ws[j].checksum == c[Kept(h) + j].checksum
    requires forall j :: 0 <= j < |ws| - 1 ==> ws[j].status == RecordStatus.SUCCESS
    requires ok ==> Kept(h) + |ws| == |c|
    requires ok ==> forall j :: 0 <= j < |ws| ==> ws[j].status == RecordStatus.SUCCESS
    ensures WellFormedLedger(h[..Kept(h)] + ws)
    ensures AlignedWith(h[..Kept(h)] + ws, c)
    ensures ok ==> Settled(h[..Kept(h)] + ws, c)
  {
    var k := Kept(h);
    KeptEntries(h, c);
    LedgerAfter(h[..k], ws, c);
    if ok {
      SettledAfter(h[..k], ws, c);
    }
  }

  /**
   * The records a run on a well-formed aligned ledger saves: one per change
   * set from the first position not kept, carrying its id and checksum, all
   * SUCCESS but possibly the last, and all of them SUCCESS, one per remaining
   * change set, when the run succeeds.
   */
  lemma {:induction false} RunRecords(h: seq<HistoryRecord>, c: seq<CS.ChangeSet>, start: Time)
    requires WellFormedLedger(h) && AlignedWith(h, c)
    ensures var run := RunOn(h, c, start);
      var k := Kept(h);
      && k + |run.saved| <= |c|
      && (k < |h| ==> |run.saved| > 0)
      && (forall j :: 0 <= j < |run.saved| ==>
            run.saved[j].id == c[k + j].id && run.saved[j].checksum == c[k + j].checksum)
      && (forall j :: 0 <= j < |run.saved| - 1 ==> run.saved[j].status == RecordStatus.SUCCESS)
      && (run.result.Success? ==> k + |run.saved| == |c|)
      && (run.result.Success? ==> forall j :: 0 <= j < |run.saved| ==> run.saved[j].status == RecordStatus.SUCCESS)
  {
    var k := Kept(h);
    KeptEntries(h, c);
    RunFromKept(h, c, start);
    var run := RunOn(h, c, start);
    RecordsFrom(c, k, start, run.saved, run.result.Success?);
    assert k < |h| ==> k < |c|;
  }

  /**
   * On a well-formed aligned ledger a run ends in Success or
   * ApplicationFailed, and its results name the declared change sets in
   * declaration order.
   */
  lemma {:induction false} RunPreservesOrder(h: seq<HistoryRecord>, c: seq<CS.ChangeSet>, start: Time)
    requires WellFormedLedger(h) && AlignedWith(h, c)
    ensures var run := RunOn(h, c, start);
      && (run.result.Success? || run.result.ApplicationFailed?)
      && CS.ResultIds(run.result.changeSetResults) == CS.ChangeSetIds(c)
  {
    var k := Kept(h);
    KeptEntries(h, c);
    RunFromKept(h, c, start);
    ResultsInOrder(h[..k], c, start);
  }

  /**
   * A settled ledger makes a run report every change set ALREADY_APPLIED with
   * its recorded timestamp, run nothing, save nothing and leave the clock.
   */
  lemma {:induction false} SettledRunIsNoOp(h: seq<HistoryRecord>, c: seq<CS.ChangeSet>, start: Time)
    requires Settled(h, c)
    ensures RunOn(h, c, start) == Run(Success(AlreadyApplied(h)), [], start)
    ensures SaveAll(h, RunOn(h, c, start).saved) == h
  {
    AlignedNeverDiverges(h, c);
    ReconcileAligned(h, c);
    AllSuccessReconciled(h, c);
    assert c[|h|..] == [];
    assert AlreadyApplied(h) + [] == AlreadyApplied(h);
  }
}
