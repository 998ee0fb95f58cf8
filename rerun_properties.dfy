/**
 * Idempotence when the declared ids are distinct: whatever the shape of the
 * ledger, a run that ends in Success leaves it settled, so running the same
 * list again changes nothing. A FAILED entry anywhere in the ledger is re-run
 * and its record replaced in place; the change sets past the end of the ledger
 * are appended. With a repeated id this fails: `Scenarios.RepeatedIdRunsAgain`.
 */
module RerunProperties {
  import opened Contexts
  import opened HistoryRecords
  import CS = ChangeSets
  import opened HistorySources
  import opened Engine
  import opened EngineProperties
  import opened LedgerProperties

  // ---------------------------------------------------------------------------
  // The retried change sets

  /** Every retried change set is the one declared at the position of a FAILED entry. */
  lemma {:induction false} RetriedAt(h: seq<HistoryRecord>, c: seq<CS.ChangeSet>)
    requires |h| <= |c|
    ensures forall j :: 0 <= j < |Retried(h, c)| ==>
      exists m :: 0 <= m < |h| && h[m].status == RecordStatus.FAILED && Retried(h, c)[j] == c[m]
  {
    if h != [] {
      var n := |h| - 1;
      var front := h[..n];
      RetriedAt(front, c);
      var t, tf := Retried(h, c), Retried(front, c);
      assert t == tf + (if h[n].status == RecordStatus.FAILED then [c[n]] else []);
      forall j | 0 <= j < |t|
        ensures exists m :: 0 <= m < |h| && h[m].status == RecordStatus.FAILED && t[j] == c[m]
      {
        if j < |tf| {
          var m :| 0 <= m < |front| && front[m].status == RecordStatus.FAILED && tf[j] == c[m];
          assert h[m] == front[m] && t[j] == tf[j];
          assert 0 <= m < |h| && h[m].status == RecordStatus.FAILED && t[j] == c[m];
        } else {
          assert 0 <= n < |h| && h[n].status == RecordStatus.FAILED && t[j] == c[n];
        }
      }
    } else {
      assert Retried(h, c) == [];
    }
  }

  /** The change set declared at the position of every FAILED entry is retried. */
  lemma {:induction false} RetriedCovers(h: seq<HistoryRecord>, c: seq<CS.ChangeSet>)
    requires |h| <= |c|
    ensures forall m :: 0 <= m < |h| && h[m].status == RecordStatus.FAILED ==> c[m] in Retried(h, c)
  {
    if h != [] {
      var n := |h| - 1;
      var front := h[..n];
      RetriedCovers(front, c);
      var t := Retried(h, c);
      assert Retried(front, c) <= t;
      forall m | 0 <= m < |h| && h[m].status == RecordStatus.FAILED ensures c[m] in t {
        if m < n {
          assert front[m] == h[m];
          assert c[m] in Retried(front, c);
        } else {
          assert t[|t| - 1] == c[n];
        }
      }
    }
  }

  /** Distinct declared ids give distinct retried ids. */
  lemma {:induction false} RetriedUnique(h: seq<HistoryRecord>, c: seq<CS.ChangeSet>)
    requires |h| <= |c| && CS.UniqueIds(c)
    ensures CS.UniqueIds(Retried(h, c))
  {
    if h != [] {
      var n := |h| - 1;
      var front := h[..n];
      RetriedUnique(front, c);
      RetriedAt(front, c);
      var t := Retried(h, c);
      var tf := Retried(front, c);
      forall a, b | 0 <= a < b < |t| ensures t[a].id != t[b].id {
        if b < |tf| {
          assert t[a] == tf[a] && t[b] == tf[b];
        } else {
          var m :| 0 <= m < |front| && front[m].status == RecordStatus.FAILED && tf[a] == c[m];
          assert t[a] == c[m] && t[b] == c[n];
        }
      }
    }
  }

  // ---------------------------------------------------------------------------
  // What a successful run shows about the ledger

  /** A successful run never stopped at a divergence. */
  lemma {:induction false} SuccessNeverDiverged(h: seq<HistoryRecord>, c: seq<CS.ChangeSet>, start: Time)
    requires RunOn(h, c, start).result.Success?
    ensures FirstDivergence(h, c) == |h|
  {
    var d := FirstDivergence(h, c);
    if d < |h| {
      DivergesAt(h, c, d, start);
      assert false;
    }
  }

  /** A ledger that nowhere diverges agrees with the declared list at every position. */
  lemma {:induction false} NeverDivergesAligned(h: seq<HistoryRecord>, c: seq<CS.ChangeSet>)
    requires FirstDivergence(h, c) == |h|
    ensures AlignedWith(h, c)
  {
    ReconcileAligned(h, c);
    forall i | 0 <= i < |h|
      ensures h[i].id == c[i].id
      ensures c[i].skipChecksumValidation || h[i].checksum == c[i].checksum
    {
      assert !Divergent(h, c, i);
    }
  }

  /**
   * A successful run saves one SUCCESS record per pending change set, in
   * pending order, carrying its id and checksum.
   */
  lemma {:induction false} SuccessRecords(h: seq<HistoryRecord>, c: seq<CS.ChangeSet>, start: Time)
    requires FirstDivergence(h, c) == |h|
    requires RunOn(h, c, start).result.Success?
    ensures |h| <= |c|
    ensures var p := Retried(h, c) + c[|h|..];
      var ws := RunOn(h, c, start).saved;
      && |ws| == |p|
      && forall i :: 0 <= i < |p| ==>
           && ws[i].id == p[i].id
           && ws[i].checksum == p[i].checksum
           && ws[i].status == RecordStatus.SUCCESS
  {
    AlignedRun(h, c, start);
    AlignedSaved(h, c, start);
    var p := Retried(h, c) + c[|h|..];
    var ws := RunOn(h, c, start).saved;
    forall i | 0 <= i < |p|
      ensures ws[i].id == p[i].id && ws[i].checksum == p[i].checksum && ws[i].status == RecordStatus.SUCCESS
    {
      assert ws[i] == ExpectedRecord(p, start, i);
      assert !CS.Fails(p[i]);
    }
  }

  // ---------------------------------------------------------------------------
  // Saving the records of a successful run

  /** The records of the retried change sets have distinct ids, all present in the ledger. */
  lemma {:induction false} RetriedRecordIds(
    h: seq<HistoryRecord>, c: seq<CS.ChangeSet>, t: seq<CS.ChangeSet>, ws: seq<HistoryRecord>)
    requires AlignedWith(h, c) && CS.UniqueIds(t) && |ws| == |t|
    requires forall j :: 0 <= j < |t| ==>
      exists m :: 0 <= m < |h| && h[m].status == RecordStatus.FAILED && t[j] == c[m]
    requires forall j :: 0 <= j < |ws| ==> ws[j].id == t[j].id
    ensures DistinctIds(ws)
    ensures forall j :: 0 <= j < |ws| ==> ws[j].id in IdsOf(h)
  {
    forall a, b | 0 <= a < b < |ws| ensures ws[a].id != ws[b].id {
      assert t[a].id != t[b].id;
    }
    forall j | 0 <= j < |ws| ensures ws[j].id in IdsOf(h) {
      assert ws[j].id == t[j].id;
      var m :| 0 <= m < |h| && h[m].status == RecordStatus.FAILED && t[j] == c[m];
      assert IdsOf(h)[m] == h[m].id == c[m].id;
    }
  }

  /**
   * After the retried change sets' records are saved, every ledger position
   * holds a SUCCESS entry for its declared change set: SUCCESS entries stay,
   * FAILED ones are replaced by their new record.
   */
  lemma {:induction false} RetriedReplaced(
    h: seq<HistoryRecord>, c: seq<CS.ChangeSet>, t: seq<CS.ChangeSet>, ws: seq<HistoryRecord>, h1: seq<HistoryRecord>)
    requires AlignedWith(h, c) && CS.UniqueIds(c) && |ws| == |t|
    requires forall j :: 0 <= j < |t| ==>
      exists m :: 0 <= m < |h| && h[m].status == RecordStatus.FAILED && t[j] == c[m]
    requires forall m :: 0 <= m < |h| && h[m].status == RecordStatus.FAILED ==> c[m] in t
    requires forall j :: 0 <= j < |ws| ==>
      ws[j].id == t[j].id && ws[j].checksum == t[j].checksum && ws[j].status == RecordStatus.SUCCESS
    requires |h1| == |h|
    requires forall i, j :: 0 <= i < |h| && 0 <= j < |ws| && ws[j].id == h[i].id ==> h1[i] == ws[j]
    requires forall i :: 0 <= i < |h| && h[i].id !in IdsOf(ws) ==> h1[i] == h[i]
    ensures AlignedWith(h1, c)
    ensures forall i :: 0 <= i < |h1| ==> h1[i].status == RecordStatus.SUCCESS
  {
    forall i | 0 <= i < |h|
      ensures h1[i].id == c[i].id
      ensures c[i].skipChecksumValidation || h1[i].checksum == c[i].checksum
      ensures h1[i].status == RecordStatus.SUCCESS
    {
      if h[i].status == RecordStatus.FAILED {
        var j :| 0 <= j < |t| && t[j] == c[i];
        assert ws[j].id == h[i].id;
      } else {
        assert h[i].id !in IdsOf(ws) by {
          forall j | 0 <= j < |ws| ensures IdsOf(ws)[j] != h[i].id {
            var m :| 0 <= m < |h| && h[m].status == RecordStatus.FAILED && t[j] == c[m];
            assert m != i;
          }
        }
      }
    }
  }

  /**
   * Saving, on an aligned ledger, SUCCESS records for the retried change sets
   * followed by SUCCESS records for every change set past the ledger's end
   * settles the ledger.
   */
  lemma {:induction false} SavingSettles(
    h: seq<HistoryRecord>, c: seq<CS.ChangeSet>, t: seq<CS.ChangeSet>, ws: seq<HistoryRecord>)
    requires AlignedWith(h, c) && CS.UniqueIds(c) && CS.UniqueIds(t)
    requires forall j :: 0 <= j < |t| ==>
      exists m :: 0 <= m < |h| && h[m].status == RecordStatus.FAILED && t[j] == c[m]
    requires forall m :: 0 <= m < |h| && h[m].status == RecordStatus.FAILED ==> c[m] in t
    requires |ws| == |t| + (|c| - |h|)
    requires forall i :: 0 <= i < |ws| ==>
      && ws[i].id == (t + c[|h|..])[i].id
      && ws[i].checksum == (t + c[|h|..])[i].checksum
      && ws[i].status == RecordStatus.SUCCESS
    ensures Settled(SaveAll(h, ws), c)
  {
    var r := |t|;
    var ws1, ws2 := ws[..r], ws[r..];
    assert ws == ws1 + ws2;
    SaveAllConcat(h, ws1, ws2);
    forall j | 0 <= j < |ws1|
      ensures ws1[j].id == t[j].id && ws1[j].checksum == t[j].checksum && ws1[j].status == RecordStatus.SUCCESS
    {
      assert ws1[j] == ws[j] && (t + c[|h|..])[j] == t[j];
    }
    AlignedIdsDistinct(h, c);
    RetriedRecordIds(h, c, t, ws1);
    SaveAllExisting(h, ws1);
    var h1 := SaveAll(h, ws1);
    assert |h1| == |h| by {
      assert |IdsOf(h1)| == |IdsOf(h)|;
    }
    RetriedReplaced(h, c, t, ws1, h1);
    AppendedTail(h1, c, t, ws, ws2);
  }

  /** The records of the change sets past the ledger's end are appended and settle it. */
  lemma {:induction false} AppendedTail(
    h1: seq<HistoryRecord>, c: seq<CS.ChangeSet>, t: seq<CS.ChangeSet>, ws: seq<HistoryRecord>, ws2: seq<HistoryRecord>)
    requires CS.UniqueIds(c) && AlignedWith(h1, c)
    requires forall i :: 0 <= i < |h1| ==> h1[i].status == RecordStatus.SUCCESS
    requires |ws| == |t| + (|c| - |h1|) && ws2 == ws[|t|..]
    requires forall i :: 0 <= i < |ws| ==>
      && ws[i].id == (t + c[|h1|..])[i].id
      && ws[i].checksum == (t + c[|h1|..])[i].checksum
      && ws[i].status == RecordStatus.SUCCESS
    ensures Settled(SaveAll(h1, ws2), c)
  {
    forall j | 0 <= j < |ws2|
      ensures ws2[j].id == c[|h1| + j].id && ws2[j].checksum == c[|h1| + j].checksum
      ensures ws2[j].status == RecordStatus.SUCCESS
    {
      assert ws2[j] == ws[|t| + j];
      assert (t + c[|h1|..])[|t| + j] == c[|h1| + j];
    }
    FreshIds(h1, ws2, c);
    SaveAllFresh(h1, ws2);
    LedgerAfter(h1, ws2, c);
    SettledAfter(h1, ws2, c);
  }

  /**
   * Whatever the ledger, a successful run on distinct declared ids shows the
   * ledger agreed with the list, and leaves it settled: every declared change
   * set has a SUCCESS entry at its own position.
   */
  lemma {:induction false} SuccessSettles(h: seq<HistoryRecord>, c: seq<CS.ChangeSet>, start: Time)
    requires CS.UniqueIds(c)
    requires RunOn(h, c, start).result.Success?
    ensures AlignedWith(h, c)
    ensures Settled(SaveAll(h, RunOn(h, c, start).saved), c)
  {
    SuccessNeverDiverged(h, c, start);
    NeverDivergesAligned(h, c);
    SuccessRecords(h, c, start);
    RetriedAt(h, c);
    RetriedCovers(h, c);
    RetriedUnique(h, c);
    SavingSettles(h, c, Retried(h, c), RunOn(h, c, start).saved);
  }

  /**
   * Idempotence: after a successful run, running the same list again reports
   * every change set ALREADY_APPLIED, runs nothing and saves nothing, whatever
   * the ledger was before the first run.
   */
  lemma {:induction false} RerunIsNoOp(h: seq<HistoryRecord>, c: seq<CS.ChangeSet>, first: Time, second: Time)
    requires CS.UniqueIds(c)
    requires RunOn(h, c, first).result.Success?
    ensures var h' := SaveAll(h, RunOn(h, c, first).saved);
      && RunOn(h', c, second) == Run(Success(AlreadyApplied(h')), [], second)
      && |AlreadyApplied(h')| == |c|
  {
    SuccessSettles(h, c, first);
    SettledRunIsNoOp(SaveAll(h, RunOn(h, c, first).saved), c, second);
  }
}
