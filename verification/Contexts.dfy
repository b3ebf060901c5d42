/** The context that a caller hands down, by which it can end what it has begun. */
module Contexts {
  /** Once a context has ended it stays so, and it can end before any look at it. */
  class Context {
    var ended: bool

    constructor ()
      ensures !ended
    {
      ended := false;
    }

    method Err() returns (over: bool)
      modifies this
      ensures over == ended && (old(ended) ==> ended)
    {
      if * {
        ended := true;
      }
      over := ended;
    }
  }
}
