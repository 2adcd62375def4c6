/** Go's context as the programs use it: cancelled or not, and how calls made under it end. */
module Contexts {
  /** What becomes of a call: its answer arrives, only its effect happens, or not even that. */
  datatype Fate = Answered | AnswerLost | RequestLost

  /** A crash is a cancellation that nobody hears of. */
  class Context {
    var cancelled: bool
    ghost var failed: bool  // some call under it was not answered

    constructor ()
      ensures !cancelled && !failed
    {
      cancelled, failed := false, false;
    }

    method Poll()
      modifies this`cancelled
      ensures old(cancelled) ==> cancelled
    {
      var now: bool := *;
      cancelled := cancelled || now;
    }

    /** A call to another system; after cancellation it has no effect. */
    method Call() returns (fate: Fate)
      modifies this
      ensures old(cancelled) ==> cancelled && fate == RequestLost
      ensures old(failed) ==> failed
      ensures fate != Answered ==> failed
    {
      Poll();
      fate := *;
      if cancelled {
        fate := RequestLost;
      }
      if fate != Answered {
        failed := true;
        Poll();
      }
    }
  }
}
