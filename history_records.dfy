/** Ledger entries: the last known outcome of each change set. */
module HistoryRecords {
  import opened Wrappers
  import opened Contexts

  datatype RecordStatus = SUCCESS | FAILED

  /**
   * One ledger entry. `executedAt` is None when the change set threw; a None
   * checksum is Java's null.
   */
  datatype HistoryRecord = HistoryRecord(
    id: string,
    executedAt: Option<Time>,
    status: RecordStatus,
    checksum: Option<string>)

  /** The ledger's ids, in order; the ledger counterpart of `ChangeSets.ChangeSetIds`. */
  function IdsOf(h: seq<HistoryRecord>): seq<string>
  {
    seq(|h|, i requires 0 <= i < |h| => h[i].id)
  }

  lemma IdsOfAppend(prefix: seq<string>, h: seq<HistoryRecord>, r: HistoryRecord)
    ensures prefix + IdsOf(h + [r]) == prefix + IdsOf(h) + [r.id]
  {
    assert IdsOf(h + [r]) == IdsOf(h) + [r.id];
  }

  /** No id appears twice in the ledger; the ledger counterpart of `ChangeSets.UniqueIds`. */
  predicate DistinctIds(h: seq<HistoryRecord>)
  {
    forall i, j :: 0 <= i < j < |h| ==> h[i].id != h[j].id
  }
}
