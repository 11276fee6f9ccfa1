/**
 * The keydown path end to end: the listeners decide on the event with the
 * overlay's visibility as it is when the event arrives and with the Mac test
 * of `navigator.platform`; the overlay commands act on the overlay, and every
 * other command runs against the page.
 */
module Listener {
  import opened Options
  import opened Keys
  import opened Host
  import opened Dispatch
  import opened ActionList
  import opened Commands
  import opened Overlay

  method HandleKeydown(o: HelpOverlay, ev: KeyEvent, d: Snapshot, platform: string,
                       parse: string -> Option<seq<string>>, view: string -> Fragment)
    returns (dec: Decision, e: Effect)
    requires o.Valid()
    modifies o
    ensures o.Valid()
    ensures dec == OnKeydown(ev, d, old(o.IsVisible()), IsMac(platform))
    ensures e == Execute(dec.command, d, parse, view)
    ensures dec.command == HideOverlay ==>
      (old(o.IsVisible()) && !o.IsVisible() && o.bodyOverflow == old(o.savedOverflow).value)
    ensures dec.command == ToggleOverlay ==> o.IsVisible() == !old(o.IsVisible())
    ensures dec.command == ToggleOverlay && old(o.IsVisible()) ==>
      (o.bodyOverflow == old(o.savedOverflow).value && o.savedOverflow == None)
    ensures dec.command == ToggleOverlay && !old(o.IsVisible()) ==>
      (o.savedOverflow == Some(old(o.bodyOverflow)) && o.bodyOverflow == Hidden)
    ensures dec.command !in {HideOverlay, ToggleOverlay} ==>
      (o.built == old(o.built) && o.display == old(o.display) &&
       o.savedOverflow == old(o.savedOverflow) && o.bodyOverflow == old(o.bodyOverflow))
  {
    var visible := o.IsVisible();
    dec := OnKeydown(ev, d, visible, IsMac(platform));
    if dec.command == HideOverlay {
      o.Hide();
    } else if dec.command == ToggleOverlay {
      o.Toggle();
    }
    e := RunCommand(dec.command, d, parse, view);
  }

  /** While the overlay is shown, Escape closes it: the edit-form blocker stands aside while the overlay is visible. */
  method EscapeClosesOverlay(o: HelpOverlay, ev: KeyEvent, d: Snapshot, platform: string,
                             parse: string -> Option<seq<string>>, view: string -> Fragment)
    requires o.Valid() && o.IsVisible() && ev.key == "Escape"
    modifies o
    ensures o.Valid() && !o.IsVisible()
  {
    var dec, e := HandleKeydown(o, ev, d, platform, parse, view);
    assert dec == Decision(true, false, HideOverlay);
  }
}
