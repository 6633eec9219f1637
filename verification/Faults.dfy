/** Errors of Redis, the database or the network. */
module Faults {

  /** An error may strike here. `faults` counts those that have struck before. */
  method Strike(ghost faults: nat) returns (struck: bool, ghost count: nat)
    ensures count == faults + if struck then 1 else 0
  {
    struck := *;
    count := faults + if struck then 1 else 0;
  }
}
