/**
 * The older in-memory history source at the repository root: a plain list
 * that every save appends to, so one id may occur several times.
 */
module LegacyHistorySources {
  import opened Wrappers
  import opened Contexts

  /** The root module's record status. */
  datatype LegacyStatus = APPLIED | FAILED

  /** The root module's history record. */
  datatype LegacyRecord = LegacyRecord(
    id: string,
    executedAt: Option<Time>,
    status: LegacyStatus,
    checksum: Option<string>)

  class InMemoryHistorySource {
    var records: seq<LegacyRecord>

    constructor ()
      ensures records == []
    {
      records := [];
    }

    /** `getHistory`: the records in the order they were saved. */
    method GetHistory() returns (h: seq<LegacyRecord>)
      ensures h == records
    {
      h := records;
    }

    /** `saveRecord`: appends, whether or not the id is already present. */
    method SaveRecord(r: LegacyRecord)
      modifies this
      ensures records == old(records) + [r]
    {
      records := records + [r];
    }
  }

  /** Saving a record twice leaves two records with its id: duplicates are kept, in save order. */
  method SavingTwiceKeepsBoth(r: LegacyRecord) returns (h: seq<LegacyRecord>)
    ensures |h| == 2
    ensures h[0] == r && h[1] == r.(status := FAILED)
    ensures h[0].id == h[1].id
  {
    var source := new InMemoryHistorySource();
    source.SaveRecord(r);
    source.SaveRecord(r.(status := FAILED));
    h := source.GetHistory();
  }
}
