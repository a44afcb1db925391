/**
 * The open/close state of `src/components/dropdown/dropdown.tsx`: a click on
 * the trigger toggles the dropdown, `handleClose` closes it, and while it is
 * open a document `mousedown` listener closes it on a press outside both the
 * trigger and the content. React runs the listener effect after every change
 * of `isOpen`; each handler here ends with that effect, so `listening`
 * always follows `isOpen`. Where a press lands is a parameter.
 */
module Dropdown {

  /** Where a `mousedown` lands, as the two `contains` tests and the two refs see it. */
  datatype Press = Press(triggerAttached: bool, contentAttached: bool, inTrigger: bool, inContent: bool)

  /** `handleOutsideClick`'s test: both refs are attached and the target is in neither element. */
  predicate IsOutside(p: Press) {
    p.triggerAttached && p.contentAttached && !p.inTrigger && !p.inContent
  }

  class DropdownState {
    var isOpen: bool
    /** Whether the document `mousedown` listener is registered. */
    var listening: bool

    /** The listener is registered exactly while the dropdown is open. */
    ghost predicate Valid()
      reads this
    {
      listening == isOpen
    }

    constructor ()
      ensures Valid() && !isOpen && !listening
    {
      isOpen := false;
      listening := false;
    }

    /** The content is rendered only while open. */
    predicate ContentRendered()
      reads this
    {
      isOpen
    }

    /** `handleClick`: the trigger toggles the dropdown. */
    method HandleClick()
      requires Valid()
      modifies this
      ensures Valid() && isOpen == !old(isOpen)
    {
      isOpen := !isOpen;
      listening := isOpen;
    }

    /** `handleClose`: the dropdown is closed, however it was before. */
    method HandleClose()
      requires Valid()
      modifies this
      ensures Valid() && !isOpen
    {
      isOpen := false;
      listening := isOpen;
    }

    /** A `mousedown` anywhere: only a registered listener sees it, and it closes only on an outside press. */
    method MouseDown(p: Press)
      requires Valid()
      modifies this
      ensures Valid()
      ensures isOpen == (old(isOpen) && !IsOutside(p))
    {
      if listening && IsOutside(p) {
        HandleClose();
      }
    }
  }

  /** Closing twice leaves the same state as closing once. */
  method CloseIsIdempotent(startOpen: bool) returns (once: bool, twice: bool)
    ensures !once && !twice
  {
    var d := new DropdownState();
    if startOpen {
      d.HandleClick();
    }
    d.HandleClose();
    once := d.isOpen;
    d.HandleClose();
    twice := d.isOpen;
  }

  /** Two clicks on the trigger bring the dropdown back to where it was; the first opens it and shows the content. */
  method ClickTwice() returns (afterOne: bool, afterTwo: bool)
    ensures afterOne && !afterTwo
  {
    var d := new DropdownState();
    d.HandleClick();
    afterOne := d.ContentRendered();
    d.HandleClick();
    afterTwo := d.ContentRendered();
  }

  /** A press inside the trigger or the content, or before both elements are attached, never closes an open dropdown. */
  method InsidePressKeepsOpen(p: Press) returns (open: bool)
    requires !IsOutside(p)
    ensures open
  {
    var d := new DropdownState();
    d.HandleClick();
    d.MouseDown(p);
    open := d.isOpen;
  }
}
