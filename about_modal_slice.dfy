/**
 * The About dialog's slice of the Redux store: one flag saying whether the dialog is open.
 */
module AboutModalSlice {

  datatype Action = OpenAboutModal | CloseAboutModal

  /** The slice's reducer on `isOpen`. */
  function Reduce(isOpen: bool, a: Action): (r: bool)
    ensures r <==> a == OpenAboutModal
  {
    match a
    case OpenAboutModal => true
    case CloseAboutModal => false
  }

  /** Each action is idempotent, and opening then closing gives back the initial closed state. */
  lemma ActionsIdempotent(isOpen: bool, a: Action)
    ensures Reduce(Reduce(isOpen, a), a) == Reduce(isOpen, a)
    ensures Reduce(Reduce(isOpen, OpenAboutModal), CloseAboutModal) == false
  {
  }

  /** The last action decides: a sequence of actions leaves the dialog open exactly when the last
    * one opened it (an empty sequence changes nothing). */
  function ReduceAll(isOpen: bool, actions: seq<Action>): (r: bool)
    ensures actions == [] ==> r == isOpen
    ensures actions != [] ==> (r <==> actions[|actions| - 1] == OpenAboutModal)
    decreases |actions|
  {
    if actions == [] then isOpen else ReduceAll(Reduce(isOpen, actions[0]), actions[1..])
  }

  /** The slice as the store holds it. */
  class AboutModalState {
    var isOpen: bool

    constructor ()
      ensures !isOpen
    {
      isOpen := false;
    }

    method Dispatch(a: Action)
      modifies this
      ensures isOpen == Reduce(old(isOpen), a)
    {
      match a
      case OpenAboutModal =>
        isOpen := true;
      case CloseAboutModal =>
        isOpen := false;
    }
  }
}
