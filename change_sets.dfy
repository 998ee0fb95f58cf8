/** Change sets: named, checksummed units of migration work. */
module ChangeSets {
  import opened Wrappers
  import opened Contexts

  datatype Status = APPLIED | SKIPPED | FAILED | ALREADY_APPLIED

  /**
   * How one call of `mutate` ends: it returns a status, which may be null
   * (None), or it throws.
   */
  datatype MutateOutcome = Returned(status: Option<Status>) | Threw

  /**
   * A declared change set. Its `mutate` is caller code; the model records only
   * how a call of it ends.
   */
  datatype ChangeSet = ChangeSet(
    id: string,
    checksum: Option<string>,
    skipChecksumValidation: bool,
    mutate: MutateOutcome)

  /** The outcome of one change set in one run. */
  datatype Result = Result(id: string, status: Option<Status>, executedAt: Option<Time>)

  /** What `apply` delivers: a stamped result, or the exception `mutate` threw. */
  datatype Application = Completed(result: Result) | Raised

  /**
   * `apply`: runs `mutate`, then stamps its status with `now`, the clock value
   * read after `mutate` returned. When `mutate` throws there is no result.
   */
  function Apply(cs: ChangeSet, now: Time): (a: Application)
    ensures a.Raised? <==> cs.mutate.Threw?
    ensures a.Completed? ==> a.result.id == cs.id
    ensures a.Completed? ==> a.result.status == cs.mutate.status
    ensures a.Completed? ==> a.result.executedAt == Some(now)
  {
    match cs.mutate
    case Returned(status) => Completed(Result(cs.id, status, Some(now)))
    case Threw => Raised
  }

  /**
   * `apply` as the engine calls it: `mutate` runs against the context's target
   * system, and the clock is read only if `mutate` returned.
   */
  method ApplyTo(cs: ChangeSet, context: Context) returns (a: Application)
    modifies context
    ensures a == Apply(cs, old(context.now))
    ensures context.mutated == old(context.mutated) + [cs.id]
    ensures context.now == if cs.mutate.Returned? then old(context.now) + 1 else old(context.now)
  {
    context.Mutate(cs.id);
    match cs.mutate {
      case Returned(status) =>
        var now := context.Instant();
        a := Completed(Result(cs.id, status, Some(now)));
      case Threw =>
        a := Raised;
    }
  }

  /** `Result.equals`: null-safe comparison of status, id and timestamp. */
  predicate Equals(a: Result, b: Result): (eq: bool)
    ensures eq <==> a == b
  {
    a.status == b.status && a.id == b.id && a.executedAt == b.executedAt
  }

  /** A change set fails when `mutate` throws or returns FAILED. */
  predicate Fails(cs: ChangeSet)
  {
    cs.mutate.Threw? || cs.mutate == Returned(Some(FAILED))
  }

  /**
   * The declared ids, in order. `ResultIds` projects a run's results and
   * `HistoryRecords.IdsOf` a ledger's entries the same way; the three differ
   * only in the element type they read `id` from.
   */
  function ChangeSetIds(cs: seq<ChangeSet>): seq<string>
  {
    seq(|cs|, i requires 0 <= i < |cs| => cs[i].id)
  }

  function ResultIds(rs: seq<Result>): seq<string>
  {
    seq(|rs|, i requires 0 <= i < |rs| => rs[i].id)
  }

  /**
   * No id is declared twice: `ChangeSetIds(cs)` has no repeated element.
   * `HistoryRecords.DistinctIds` is the same condition on ledger entries.
   */
  predicate UniqueIds(cs: seq<ChangeSet>)
  {
    forall i, j :: 0 <= i < j < |cs| ==> cs[i].id != cs[j].id
  }
}
