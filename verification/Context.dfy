/** Cancellation, shared by the sink workers and the client. */
module Contexts {
  /** A context: whether it has been found to have ended, and the sleeps taken
      under it. Once ended it stays so. */
  class Context {
    var ended: bool
    ghost var sleeps: seq<int>

    constructor ()
      ensures !ended && sleeps == []
    {
      ended, sleeps := false, [];
    }

    method Ended() returns (yes: bool)
      modifies this`ended
      ensures yes == ended && (old(ended) ==> yes)
    {
      if * { ended := true; }
      yes := ended;
    }

    /** True if the context ended first. */
    method Sleep(length: int) returns (cancelled: bool)
      modifies this
      ensures sleeps == old(sleeps) + [length] && cancelled == ended && (old(ended) ==> cancelled)
    {
      sleeps := sleeps + [length];
      cancelled := Ended();
    }
  }
}
