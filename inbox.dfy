/** The inbox panel store: whether the panel is open. */
module Inbox {

  class InboxStore {
    var isOpen: bool

    constructor ()
      ensures !isOpen
    {
      isOpen := false;
    }

    /** `open`: the panel is open afterwards, whatever it was. */
    method Open()
      modifies this
      ensures isOpen
    {
      isOpen := true;
    }

    /** `close`: the panel is closed afterwards, whatever it was. */
    method Close()
      modifies this
      ensures !isOpen
    {
      isOpen := false;
    }

    /** `toggle`: flips the state, so two toggles restore it. */
    method Toggle()
      modifies this
      ensures isOpen == !old(isOpen)
    {
      isOpen := !isOpen;
    }
  }
}
