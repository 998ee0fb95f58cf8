/**
 * The migration context. The engine needs only its clock; the system under
 * migration is seen through the change sets whose `mutate` ran against it.
 */
module Contexts {

  /** An instant read from the context's clock. */
  type Time = nat

  /**
   * A context whose clock is a counter: each read returns the current value and
   * advances it by one, as the iterating clock of the engine's tests does.
   */
  class Context {
    /** The instant the clock returns on its next read. */
    var now: Time
    /** Ids of the change sets whose `mutate` ran against the target system, in order. */
    var mutated: seq<string>

    constructor (start: Time)
      ensures now == start && mutated == []
    {
      now := start;
      mutated := [];
    }

    /** Reads the clock. */
    method Instant() returns (t: Time)
      modifies this
      ensures t == old(now) && now == old(now) + 1
      ensures mutated == old(mutated)
    {
      t := now;
      now := now + 1;
    }

    /** Runs the `mutate` of change set `id` against the target system. */
    method Mutate(id: string)
      modifies this
      ensures mutated == old(mutated) + [id]
      ensures now == old(now)
    {
      mutated := mutated + [id];
    }
  }
}
