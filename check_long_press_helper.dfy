/** `CheckLongPressHelper`: posts a delayed check on a view that performs
    its long click if, when the check runs, the view still has a parent and
    window focus and no long press has been performed yet, and remembers
    whether it did. */
module CheckLongPressHelper {

  const DEFAULT_LONG_PRESS_TIMEOUT := 300

  /** A `CheckForLongPress` runnable. */
  class CheckForLongPress {
    constructor ()
    {
    }
  }

  /** A runnable posted on the view's message queue with its delay. */
  datatype Posted = Posted(check: CheckForLongPress, delayMillis: int)

  /** The queue without any posting of `check`, as `removeCallbacks` leaves it. */
  function RemoveCallbacks(queue: seq<Posted>, check: CheckForLongPress): (r: seq<Posted>)
    ensures forall i :: 0 <= i < |r| ==> r[i] in queue && r[i].check != check
    ensures forall i :: 0 <= i < |queue| && queue[i].check != check ==> queue[i] in r
    ensures |r| <= |queue|
    // Every other posting keeps its multiplicity.
    ensures forall x :: x in queue && x.check != check ==> multiset(r)[x] == multiset(queue)[x]
  {
    if queue == [] then []
    else
      assert queue == queue[..|queue| - 1] + [queue[|queue| - 1]];
      if queue[|queue| - 1].check == check then RemoveCallbacks(queue[..|queue| - 1], check)
      else RemoveCallbacks(queue[..|queue| - 1], check) + [queue[|queue| - 1]]
  }

  /** The parts of the helper's `View` it uses: whether it is attached to a
      parent, whether it has window focus, its pressed state and the
      runnables posted on it. */
  class View {
    var hasParent: bool
    var hasWindowFocus: bool
    var pressed: bool
    var queue: seq<Posted>

    constructor (hasParent: bool, hasWindowFocus: bool, pressed: bool)
      ensures this.hasParent == hasParent && this.hasWindowFocus == hasWindowFocus
      ensures this.pressed == pressed && queue == []
    {
      this.hasParent := hasParent;
      this.hasWindowFocus := hasWindowFocus;
      this.pressed := pressed;
      queue := [];
    }
  }

  class CheckLongPressHelper {
    const view: View
    /** `mHasPerformedLongPress`. */
    var hasPerformed: bool
    /** `mLongPressTimeout`. */
    var longPressTimeout: int
    /** `mPendingCheckForLongPress`, null when no check is outstanding. */
    var pending: CheckForLongPress?

    constructor (v: View)
      ensures view == v && !hasPerformed && pending == null
      ensures longPressTimeout == DEFAULT_LONG_PRESS_TIMEOUT
    {
      view := v;
      hasPerformed := false;
      longPressTimeout := DEFAULT_LONG_PRESS_TIMEOUT;
      pending := null;
    }

    /** `setLongPressTimeout(longPressTimeout)`. */
    method SetLongPressTimeout(timeout: int)
      modifies this
      ensures longPressTimeout == timeout
      ensures hasPerformed == old(hasPerformed) && pending == old(pending)
    {
      longPressTimeout := timeout;
    }

    /** `postCheckForLongPress()`: clears the flag and posts the pending
      check, created on first use and reused afterwards, after the timeout. */
    method PostCheckForLongPress()
      modifies this, view
      ensures !hasPerformed && pending != null
      ensures old(pending) != null ==> pending == old(pending)
      ensures old(pending) == null ==> fresh(pending)
      ensures view.queue == old(view.queue) + [Posted(pending, longPressTimeout)]
      ensures longPressTimeout == old(longPressTimeout)
      ensures view.hasParent == old(view.hasParent) && view.hasWindowFocus == old(view.hasWindowFocus)
      ensures view.pressed == old(view.pressed)
    {
      hasPerformed := false;
      if pending == null {
        pending := new CheckForLongPress();
      }
      view.queue := view.queue + [Posted(pending, longPressTimeout)];
    }

    /** `cancelLongPress()`: clears the flag and withdraws the pending check. */
    method CancelLongPress()
      modifies this, view
      ensures !hasPerformed && pending == null
      ensures old(pending) != null ==> view.queue == RemoveCallbacks(old(view.queue), old(pending))
      ensures old(pending) == null ==> view.queue == old(view.queue)
      ensures forall i :: 0 <= i < |view.queue| ==> view.queue[i].check != old(pending)
      ensures longPressTimeout == old(longPressTimeout)
      ensures view.hasParent == old(view.hasParent) && view.hasWindowFocus == old(view.hasWindowFocus)
      ensures view.pressed == old(view.pressed)
    {
      hasPerformed := false;
      if pending != null {
        view.queue := RemoveCallbacks(view.queue, pending);
        pending := null;
      }
    }

    /** `CheckForLongPress.run()`: when the view is attached and focused and
        no long press was performed yet, performs the long click (whose
        result is `handled`); a handled click unpresses the view and sets
        the flag. */
    method RunCheck(handled: bool)
      modifies this, view
      ensures hasPerformed == (old(hasPerformed) || (view.hasParent && view.hasWindowFocus && handled))
      ensures view.pressed == (if !old(hasPerformed) && view.hasParent && view.hasWindowFocus && handled
                               then false else old(view.pressed))
      ensures old(hasPerformed) ==> hasPerformed && view.pressed == old(view.pressed)
      ensures pending == old(pending) && longPressTimeout == old(longPressTimeout)
      ensures view.queue == old(view.queue)
      ensures view.hasParent == old(view.hasParent) && view.hasWindowFocus == old(view.hasWindowFocus)
    {
      if view.hasParent && view.hasWindowFocus && !hasPerformed {
        if handled {
          view.pressed := false;
          hasPerformed := true;
        }
      }
    }

    /** `hasPerformedLongPress()`. */
    function HasPerformedLongPress(): (r: bool)
      reads this
      ensures r <==> hasPerformed
    {
      hasPerformed
    }
  }
}
