/**
 * Key events and the modifier chords of the keydown cascade. The cascade of
 * the source is a chain of `if / else if` tests on the raw modifier flags;
 * `CascadeBranch` is that chain, and `Bindings` is the same information as a
 * table of exact modifier sets, proved equivalent to it.
 */
module Keys {
  import opened Options
  import opened Text

  /** The parts of a DOM `KeyboardEvent` the listeners read. `targetTag` is `event.target.tagName`. */
  datatype KeyEvent = KeyEvent(
    code: string, key: string, keyCode: int,
    metaKey: bool, ctrlKey: bool, altKey: bool, shiftKey: bool,
    targetTag: Option<string>)

  /** `navigator.platform.includes('Mac')`. */
  predicate IsMac(platform: string) {
    Contains(platform, "Mac")
  }

  // ---------------------------------------------------------------------------
  // The flag tests of the source
  // ---------------------------------------------------------------------------

  /** The Escape test of the Escape blocker: `code`, `key` or `keyCode` 27. */
  predicate IsEscape(ev: KeyEvent) {
    ev.code == "Escape" || ev.key == "Escape" || ev.keyCode == 27
  }

  /** The Escape test of the overlay branch: `key` or `code`. */
  predicate IsEscapeKey(ev: KeyEvent) {
    ev.key == "Escape" || ev.code == "Escape"
  }

  /** Slash with the primary modifier and without Alt; Shift, and Ctrl on a Mac, may be held too. */
  predicate WantsOverlay(ev: KeyEvent, mac: bool) {
    ev.code == "Slash" && !ev.altKey && ((mac && ev.metaKey) || (!mac && ev.ctrlKey))
  }

  /** Plain Enter, or Alt+Enter with no other modifier: the keys the host chat box treats as "send". */
  predicate IsChatEnter(ev: KeyEvent) {
    ev.code == "Enter" &&
    ((!ev.metaKey && !ev.ctrlKey && !ev.altKey && !ev.shiftKey) ||
     (ev.altKey && !ev.metaKey && !ev.ctrlKey && !ev.shiftKey))
  }

  /** The chord of Edit, Text Reminder and Assign Crew: Cmd+Ctrl on a Mac, Ctrl+Alt elsewhere. */
  predicate ActionChord(ev: KeyEvent, mac: bool) {
    (mac && ev.metaKey && ev.ctrlKey && !ev.altKey && !ev.shiftKey) ||
    (!mac && ev.ctrlKey && ev.altKey && !ev.metaKey && !ev.shiftKey)
  }

  /** The chord of the message inbox: Cmd+Option on a Mac, Ctrl+Alt elsewhere. */
  predicate InboxChord(ev: KeyEvent, mac: bool) {
    (mac && ev.metaKey && ev.altKey && !ev.ctrlKey && !ev.shiftKey) ||
    (!mac && ev.ctrlKey && ev.altKey && !ev.metaKey && !ev.shiftKey)
  }

  /** The primary modifier alone: Cmd on a Mac, Ctrl elsewhere (activity feed, save). */
  predicate PrimaryChord(ev: KeyEvent, mac: bool) {
    (mac && ev.metaKey && !ev.altKey && !ev.ctrlKey && !ev.shiftKey) ||
    (!mac && ev.ctrlKey && !ev.metaKey && !ev.altKey && !ev.shiftKey)
  }

  /** Shift alone. */
  predicate ShiftChord(ev: KeyEvent) {
    ev.shiftKey && !ev.metaKey && !ev.ctrlKey && !ev.altKey
  }

  /** The branches of the cascade, in the order the source tests them. */
  datatype Branch =
    | EditBranch | ReminderBranch | CrewBranch | InboxBranch | FeedBranch
    | NotesBranch | InfoBranch | VisitsBranch | SaveBranch

  /** The `if / else if` chain of the keydown listener, on flags alone. */
  function CascadeBranch(ev: KeyEvent, mac: bool): Option<Branch> {
    if ActionChord(ev, mac) && ev.code == "KeyE" then Some(EditBranch)
    else if ActionChord(ev, mac) && ev.code == "KeyT" then Some(ReminderBranch)
    else if ActionChord(ev, mac) && ev.code == "KeyA" then Some(CrewBranch)
    else if InboxChord(ev, mac) && ev.code == "Backslash" then Some(InboxBranch)
    else if PrimaryChord(ev, mac) && ev.code == "Backslash" then Some(FeedBranch)
    else if ShiftChord(ev) && ev.code == "KeyN" then Some(NotesBranch)
    else if ShiftChord(ev) && ev.code == "KeyI" then Some(InfoBranch)
    else if ShiftChord(ev) && ev.code == "KeyV" then Some(VisitsBranch)
    else if ev.code == "Enter" && PrimaryChord(ev, mac) then Some(SaveBranch)
    else None
  }

  // ---------------------------------------------------------------------------
  // The same cascade as a table of exact modifier sets
  // ---------------------------------------------------------------------------

  datatype Modifier = Meta | Ctrl | Alt | Shift

  /** The modifiers held during `ev`. */
  function Held(ev: KeyEvent): (m: set<Modifier>)
    ensures Meta in m <==> ev.metaKey
    ensures Ctrl in m <==> ev.ctrlKey
    ensures Alt in m <==> ev.altKey
    ensures Shift in m <==> ev.shiftKey
  {
    (if ev.metaKey then {Meta} else {}) + (if ev.ctrlKey then {Ctrl} else {}) +
    (if ev.altKey then {Alt} else {}) + (if ev.shiftKey then {Shift} else {})
  }

  /** An exact modifier chord: which of the four modifiers are held. */
  datatype Chord = Chord(meta: bool, ctrl: bool, alt: bool, shift: bool)

  /** The modifiers a chord holds. */
  function Mods(c: Chord): (m: set<Modifier>)
    ensures Meta in m <==> c.meta
    ensures Ctrl in m <==> c.ctrl
    ensures Alt in m <==> c.alt
    ensures Shift in m <==> c.shift
  {
    (if c.meta then {Meta} else {}) + (if c.ctrl then {Ctrl} else {}) +
    (if c.alt then {Alt} else {}) + (if c.shift then {Shift} else {})
  }

  const MetaCtrl := Chord(true, true, false, false)
  const CtrlAlt := Chord(false, true, true, false)
  const MetaAlt := Chord(true, false, true, false)
  const MetaOnly := Chord(true, false, false, false)
  const CtrlOnly := Chord(false, true, false, false)
  const ShiftOnly := Chord(false, false, false, true)

  /** One row of the command table: a physical key and the exact chord on each platform. */
  datatype Binding = Binding(code: string, onMac: Chord, onOther: Chord, branch: Branch)

  function ChordOn(b: Binding, mac: bool): Chord {
    if mac then b.onMac else b.onOther
  }

  const Bindings: seq<Binding> := [
    Binding("KeyE", MetaCtrl, CtrlAlt, EditBranch),
    Binding("KeyT", MetaCtrl, CtrlAlt, ReminderBranch),
    Binding("KeyA", MetaCtrl, CtrlAlt, CrewBranch),
    Binding("Backslash", MetaAlt, CtrlAlt, InboxBranch),
    Binding("Backslash", MetaOnly, CtrlOnly, FeedBranch),
    Binding("KeyN", ShiftOnly, ShiftOnly, NotesBranch),
    Binding("KeyI", ShiftOnly, ShiftOnly, InfoBranch),
    Binding("KeyV", ShiftOnly, ShiftOnly, VisitsBranch),
    Binding("Enter", MetaOnly, CtrlOnly, SaveBranch)
  ]

  /** Exactly the modifiers of `c` are held: none missing and none extra. */
  predicate HeldExactly(ev: KeyEvent, c: Chord) {
    ev.metaKey == c.meta && ev.ctrlKey == c.ctrl && ev.altKey == c.alt && ev.shiftKey == c.shift
  }

  predicate Selects(b: Binding, ev: KeyEvent, mac: bool) {
    ev.code == b.code && HeldExactly(ev, ChordOn(b, mac))
  }

  /** First-match lookup in a table, from row `k` on. */
  function Lookup(table: seq<Binding>, ev: KeyEvent, mac: bool, k: nat := 0): (r: Option<Branch>)
    ensures r.Some? ==> exists i :: k <= i < |table| && Selects(table[i], ev, mac) && table[i].branch == r.value
    ensures r.None? ==> forall i :: k <= i < |table| ==> !Selects(table[i], ev, mac)
    decreases |table| - k
  {
    if k >= |table| then None
    else if Selects(table[k], ev, mac) then Some(table[k].branch)
    else Lookup(table, ev, mac, k + 1)
  }

  /** No two rows of the table select the same event, so its order does not matter. */
  lemma BindingsUnambiguous(mac: bool)
    ensures forall i, j :: 0 <= i < j < |Bindings| ==>
      Bindings[i].code != Bindings[j].code || ChordOn(Bindings[i], mac) != ChordOn(Bindings[j], mac)
  {
  }

  /** Each branch has one row. */
  lemma BindingsDistinctBranches()
    ensures forall i, j :: 0 <= i < j < |Bindings| ==> Bindings[i].branch != Bindings[j].branch
  {
  }

  /** `HeldExactly` is equality of the held modifiers with the chord's. */
  lemma HeldExactlyIsHeld(ev: KeyEvent, c: Chord)
    ensures HeldExactly(ev, c) <==> Held(ev) == Mods(c)
  {
    if Held(ev) == Mods(c) {
      assert Meta in Held(ev) <==> Meta in Mods(c);
      assert Ctrl in Held(ev) <==> Ctrl in Mods(c);
      assert Alt in Held(ev) <==> Alt in Mods(c);
      assert Shift in Held(ev) <==> Shift in Mods(c);
    }
  }

  /** The table's rows for Shift+N, Shift+I, Shift+V and Cmd/Ctrl+Enter select what the tail of the chain selects. */
  lemma {:induction false} LookupTail(ev: KeyEvent, mac: bool)
    ensures Lookup(Bindings, ev, mac, 5) ==
      if ShiftChord(ev) && ev.code == "KeyN" then Some(NotesBranch)
      else if ShiftChord(ev) && ev.code == "KeyI" then Some(InfoBranch)
      else if ShiftChord(ev) && ev.code == "KeyV" then Some(VisitsBranch)
      else if ev.code == "Enter" && PrimaryChord(ev, mac) then Some(SaveBranch)
      else None
  {
    var t := Bindings;
    assert Selects(t[5], ev, mac) <==> ShiftChord(ev) && ev.code == "KeyN";
    assert Selects(t[6], ev, mac) <==> ShiftChord(ev) && ev.code == "KeyI";
    assert Selects(t[7], ev, mac) <==> ShiftChord(ev) && ev.code == "KeyV";
    assert Selects(t[8], ev, mac) <==> PrimaryChord(ev, mac) && ev.code == "Enter";
    assert Lookup(t, ev, mac, 9) == None;
    assert Lookup(t, ev, mac, 8) == if Selects(t[8], ev, mac) then Some(SaveBranch) else None;
    assert Lookup(t, ev, mac, 7) == if Selects(t[7], ev, mac) then Some(VisitsBranch) else Lookup(t, ev, mac, 8);
    assert Lookup(t, ev, mac, 6) == if Selects(t[6], ev, mac) then Some(InfoBranch) else Lookup(t, ev, mac, 7);
    assert Lookup(t, ev, mac, 5) == if Selects(t[5], ev, mac) then Some(NotesBranch) else Lookup(t, ev, mac, 6);
  }

  /** The `if / else if` chain selects exactly what the table of exact chords selects. */
  lemma {:induction false} CascadeIsBindingTable(ev: KeyEvent, mac: bool)
    ensures CascadeBranch(ev, mac) == Lookup(Bindings, ev, mac)
  {
    var t := Bindings;
    assert Selects(t[0], ev, mac) <==> ActionChord(ev, mac) && ev.code == "KeyE";
    assert Selects(t[1], ev, mac) <==> ActionChord(ev, mac) && ev.code == "KeyT";
    assert Selects(t[2], ev, mac) <==> ActionChord(ev, mac) && ev.code == "KeyA";
    assert Selects(t[3], ev, mac) <==> InboxChord(ev, mac) && ev.code == "Backslash";
    assert Selects(t[4], ev, mac) <==> PrimaryChord(ev, mac) && ev.code == "Backslash";
    LookupTail(ev, mac);
    assert Lookup(t, ev, mac, 4) == if Selects(t[4], ev, mac) then Some(FeedBranch) else Lookup(t, ev, mac, 5);
    assert Lookup(t, ev, mac, 3) == if Selects(t[3], ev, mac) then Some(InboxBranch) else Lookup(t, ev, mac, 4);
    assert Lookup(t, ev, mac, 2) == if Selects(t[2], ev, mac) then Some(CrewBranch) else Lookup(t, ev, mac, 3);
    assert Lookup(t, ev, mac, 1) == if Selects(t[1], ev, mac) then Some(ReminderBranch) else Lookup(t, ev, mac, 2);
    assert Lookup(t, ev, mac, 0) == if Selects(t[0], ev, mac) then Some(EditBranch) else Lookup(t, ev, mac, 1);
  }

  /** At most one row of the table selects a given event. */
  lemma AtMostOneRowSelects(ev: KeyEvent, mac: bool)
    ensures forall i, j :: 0 <= i < j < |Bindings| ==> !(Selects(Bindings[i], ev, mac) && Selects(Bindings[j], ev, mac))
  {
    BindingsUnambiguous(mac);
  }

  /**
   * Exactness: a branch of the cascade is taken exactly when its key is
   * pressed with exactly its chord for the platform, no modifier more or less.
   */
  lemma BranchIffExactChord(ev: KeyEvent, mac: bool, i: nat)
    requires i < |Bindings|
    ensures CascadeBranch(ev, mac) == Some(Bindings[i].branch) <==> Selects(Bindings[i], ev, mac)
  {
    CascadeIsBindingTable(ev, mac);
    AtMostOneRowSelects(ev, mac);
    BindingsDistinctBranches();
  }

  /** The branches of the first five rows. */
  lemma ChordRows()
    ensures Bindings[0].branch == EditBranch && Bindings[1].branch == ReminderBranch && Bindings[2].branch == CrewBranch
    ensures Bindings[3].branch == InboxBranch && Bindings[4].branch == FeedBranch
  {
  }

  /** Only E, T, A and Backslash reach the first five branches. */
  lemma ChordBranchCodes(ev: KeyEvent, mac: bool)
    requires CascadeBranch(ev, mac).Some? && CascadeBranch(ev, mac).value in {EditBranch, ReminderBranch, CrewBranch, InboxBranch, FeedBranch}
    ensures ev.code == "KeyE" || ev.code == "KeyT" || ev.code == "KeyA" || ev.code == "Backslash"
  {
  }

  /** The two Backslash rows never both apply: the inbox and the feed are distinguished by Alt. */
  lemma BackslashVariantsDisjoint(ev: KeyEvent, mac: bool)
    ensures !(InboxChord(ev, mac) && PrimaryChord(ev, mac))
  {
  }

  /** Cmd+Ctrl+Shift+E on a Mac selects no branch: one extra modifier defeats the chord. */
  lemma ExtraShiftSelectsNothing(ev: KeyEvent)
    requires ev.code == "KeyE" && ev.metaKey && ev.ctrlKey && ev.shiftKey && !ev.altKey
    ensures CascadeBranch(ev, true) == None
  {
  }
}
