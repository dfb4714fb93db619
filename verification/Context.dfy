// A request context, as the code sees it: only its observations matter. It may be cancelled before
// any observation, and never comes back.

module Contexts {
  import opened Wrappers
  import opened Errors

  class Context {
    const cancelledAt: Option<nat> // the first observation that sees the cancellation
    const cause: GoError
    var observations: nat

    constructor (cancelledAt: Option<nat>, cause: GoError)
      ensures this.cancelledAt == cancelledAt && this.cause == cause && observations == 0
    {
      this.cancelledAt, this.cause := cancelledAt, cause;
      observations := 0;
    }

    // Whether the observation with this number sees a cancelled context.
    predicate Cancelled(observation: nat) {
      cancelledAt.Some? && cancelledAt.value <= observation
    }

    // What that observation returns.
    function Seen(observation: nat): Option<GoError> {
      if Cancelled(observation) then Some(cause) else None
    }

    method Err() returns (error: Option<GoError>)
      modifies this`observations
      ensures observations == old(observations) + 1
      ensures error == Seen(old(observations))
    {
      error := Seen(observations);
      observations := observations + 1;
    }
  }
}
