/**
 Faults of one durable operation.

 Every write to disk in the model is given a Fate by its caller, so that a statement
 quantified over fates covers every combination of failed writes and every point at
 which the process can die.  A failed or interrupted atomic write has no effect.
 */
module Durable {

  datatype Fate =
    | Works
    | Fails  // the operation returns an error and changes nothing
    | Dies   // the process dies before the operation takes effect

  /** How a whole call ended. */
  datatype Outcome = Done | Failed | Crashed

  function OutcomeOf(f: Fate): Outcome {
    match f
    case Works => Done
    case Fails => Failed
    case Dies => Crashed
  }

  /** 1 for a failed operation: used to count failures. */
  function Failure(f: Fate): nat {
    if f.Fails? then 1 else 0
  }
}
