/**
 * The keyboard-shortcut help overlay: built lazily on first use, shown with
 * `display: flex` while the page's body scroll is locked, and hidden with
 * `display: none`, restoring the body's previous `overflow`. The close
 * button and a click on the backdrop both hide it.
 */
module Overlay {
  import opened Options

  const Flex: string := "flex"
  const NoDisplay: string := "none"
  const Hidden: string := "hidden"

  class HelpOverlay {
    /** The overlay element exists (`shortcutsOverlay` is set). */
    var built: bool
    /** Its inline `display`. */
    var display: string
    /** `previousBodyOverflow`; None is `undefined`. */
    var savedOverflow: Option<string>
    /** `document.body.style.overflow`. */
    var bodyOverflow: string

    /**
     * The overlay is shown exactly while a body overflow is saved, and the
     * body is scroll-locked while it is shown; before it is built nothing is
     * saved.
     */
    predicate Valid()
      reads this
    {
      (display == Flex || display == NoDisplay) &&
      (display == Flex <==> savedOverflow.Some?) &&
      (display == Flex ==> bodyOverflow == Hidden) &&
      (!built ==> display == NoDisplay)
    }

    /** `isShortcutsModalVisible`. */
    predicate IsVisible()
      reads this
    {
      built && display == Flex
    }

    /** The state when the script loads: no overlay, nothing saved. */
    constructor(body: string)
      ensures Valid() && !IsVisible()
      ensures !built && display == NoDisplay && savedOverflow == None && bodyOverflow == body
    {
      built := false;
      display := NoDisplay;
      savedOverflow := None;
      bodyOverflow := body;
    }

    /** `createShortcutsModal`: builds the overlay once, hidden; later calls change nothing. */
    method Create()
      requires Valid()
      modifies this
      ensures Valid() && built
      ensures display == old(display) && savedOverflow == old(savedOverflow) && bodyOverflow == old(bodyOverflow)
    {
      if built {
        return;
      }
      built := true;
      display := NoDisplay;
    }

    /** `hideShortcutsModal`: does nothing before the overlay exists; otherwise hides it and restores a saved overflow. */
    method Hide()
      requires Valid()
      modifies this
      ensures Valid() && !IsVisible()
      ensures built == old(built)
      ensures !old(built) ==> display == old(display) && savedOverflow == old(savedOverflow) && bodyOverflow == old(bodyOverflow)
      ensures old(built) ==> display == NoDisplay && savedOverflow == None
      ensures old(built) ==> bodyOverflow == (if old(savedOverflow).Some? then old(savedOverflow).value else old(bodyOverflow))
    {
      if !built {
        return;
      }
      display := NoDisplay;
      if savedOverflow.Some? {
        bodyOverflow := savedOverflow.value;
        savedOverflow := None;
      }
    }

    /** `showShortcutsModal`, as `toggleShortcutsModal` calls it: only while hidden. */
    method Show()
      requires Valid() && !IsVisible()
      modifies this
      ensures Valid() && IsVisible()
      ensures savedOverflow == Some(old(bodyOverflow)) && bodyOverflow == Hidden
    {
      Create();
      savedOverflow := Some(bodyOverflow);
      bodyOverflow := Hidden;
      display := Flex;
    }

    /** `toggleShortcutsModal`. */
    method Toggle()
      requires Valid()
      modifies this
      ensures Valid() && built
      ensures IsVisible() == !old(IsVisible())
      ensures old(IsVisible()) ==> bodyOverflow == old(savedOverflow).value && savedOverflow == None
      ensures !old(IsVisible()) ==> savedOverflow == Some(old(bodyOverflow)) && bodyOverflow == Hidden
    {
      Create();
      if display == Flex {
        Hide();
      } else {
        Show();
      }
    }
  }

  /** Showing and then hiding the overlay gives the body back the overflow it had. */
  method ToggleTwiceRestoresBody(o: HelpOverlay)
    requires o.Valid() && !o.IsVisible()
    modifies o
    ensures o.Valid() && !o.IsVisible()
    ensures o.bodyOverflow == old(o.bodyOverflow) && o.savedOverflow == None
  {
    o.Toggle();
    o.Toggle();
  }

  /** Hiding an overlay that is not shown leaves the body's overflow alone. */
  method HideWhenHiddenKeepsBody(o: HelpOverlay)
    requires o.Valid() && !o.IsVisible()
    modifies o
    ensures o.Valid() && !o.IsVisible()
    ensures o.bodyOverflow == old(o.bodyOverflow) && o.savedOverflow == None
  {
    o.Hide();
  }
}
