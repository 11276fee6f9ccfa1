/**
 * The three capture-phase listeners on `document`: the Escape blocker (keydown,
 * keyup, keypress), the main keydown dispatcher, and the keypress Enter
 * filter. Each is a function from an event and a snapshot to a `Decision`:
 * whether `preventDefault` is called, whether propagation is stopped
 * (`stopPropagation` and `stopImmediatePropagation` are always called
 * together), and at most one command.
 */
module Dispatch {
  import opened Options
  import opened Keys
  import opened Host

  datatype Command =
    | NoCommand
    | BlockEscape          // Escape swallowed while an edit form is open
    | HideOverlay
    | ToggleOverlay
    | BlockChatEnter       // plain Enter or Alt+Enter swallowed in the chat box
    | OpenEdit
    | OpenTextReminder
    | AssignCrew
    | ToggleInbox
    | ToggleFeed
    | SwitchToNotes
    | ScrollToNotes
    | SwitchToInfo
    | ScrollToVisits
    | ClickDeleteNote
    | SendChat
    | Save

  datatype Decision = Decision(preventDefault: bool, stopsPropagation: bool, command: Command)

  /** The event is left to the page: no `preventDefault`, no command. */
  const Untouched := Decision(false, false, NoCommand)

  /** `blockEscapeInEditDialog`: skipped while the help overlay is visible. */
  predicate BlocksEscape(ev: KeyEvent, d: Snapshot, overlayVisible: bool) {
    !overlayVisible && IsEscape(ev) && d.editFormOpen
  }

  /** The plain-Enter / Alt+Enter filter of the chat box. */
  predicate BlocksChatEnter(ev: KeyEvent, d: Snapshot) {
    IsChatEnter(ev) && ev.targetTag == Some("TEXTAREA") && d.chatSendButton
  }

  /**
   * keydown. The Escape blocker is registered first on the same node and
   * stops immediate propagation, so when it fires the dispatcher never runs.
   */
  function OnKeydown(ev: KeyEvent, d: Snapshot, overlayVisible: bool, mac: bool): Decision {
    if BlocksEscape(ev, d, overlayVisible) then Decision(true, true, BlockEscape)
    else Dispatcher(ev, d, overlayVisible, mac)
  }

  /** The main keydown listener. */
  function Dispatcher(ev: KeyEvent, d: Snapshot, overlayVisible: bool, mac: bool): Decision {
    if overlayVisible && IsEscapeKey(ev) then Decision(true, false, HideOverlay)
    else if WantsOverlay(ev, mac) then Decision(true, false, ToggleOverlay)
    else if BlocksChatEnter(ev, d) then Decision(true, true, BlockChatEnter)
    else match CascadeBranch(ev, mac)
      case None => Untouched
      case Some(b) => BranchDecision(b, ev, d)
  }

  /** What a branch of the cascade does once its chord has matched; the context guards live here. */
  function BranchDecision(b: Branch, ev: KeyEvent, d: Snapshot): Decision {
    match b
    case EditBranch => Decision(true, false, OpenEdit)
    case ReminderBranch => Decision(true, false, OpenTextReminder)
    case CrewBranch => Decision(true, false, AssignCrew)
    case InboxBranch => Decision(true, false, ToggleInbox)
    case FeedBranch => Decision(true, false, ToggleFeed)
    case NotesBranch =>
      if IsTyping(d) then Untouched
      else if InVisitOrRequest(d) then Decision(true, false, SwitchToNotes)
      else if OnJobPage(d) then Decision(true, false, ScrollToNotes)
      else Untouched
    case InfoBranch =>
      if IsTyping(d) then Untouched
      else if InVisitOrRequest(d) then Decision(true, false, SwitchToInfo)
      else Untouched
    case VisitsBranch =>
      if IsTyping(d) then Untouched
      else if OnJobPage(d) then Decision(true, false, ScrollToVisits)
      else Untouched
    case SaveBranch =>
      if InDeleteNoteDialog(d) && d.deleteNoteButton then Decision(true, false, ClickDeleteNote)
      else if ev.targetTag == Some("TEXTAREA") && d.chatSendButton then Decision(true, true, SendChat)
      else Decision(true, false, Save)
  }

  /** keyup: only the Escape blocker listens. */
  function OnKeyup(ev: KeyEvent, d: Snapshot, overlayVisible: bool): Decision {
    if BlocksEscape(ev, d, overlayVisible) then Decision(true, true, BlockEscape) else Untouched
  }

  /** keypress: the Escape blocker, then the Enter filter registered after it. */
  function OnKeypress(ev: KeyEvent, d: Snapshot, overlayVisible: bool): Decision {
    if BlocksEscape(ev, d, overlayVisible) then Decision(true, true, BlockEscape)
    else if BlocksChatEnter(ev, d) then Decision(true, true, BlockChatEnter)
    else Untouched
  }

  // ---------------------------------------------------------------------------
  // Properties of the dispatch
  // ---------------------------------------------------------------------------

  /** A physical key whose `key` and `keyCode` agree with its `code` about being Escape. */
  predicate EscapeConsistent(ev: KeyEvent) {
    (ev.key == "Escape" || ev.keyCode == 27) ==> ev.code == "Escape"
  }

  /**
   * A decision is either "untouched" or prevents the default: a command never
   * runs while the page's own handling goes ahead, and a suppression always
   * prevents the default.
   */
  lemma DecisionShape(ev: KeyEvent, d: Snapshot, vis: bool, mac: bool)
    ensures var r := OnKeydown(ev, d, vis, mac);
      (r.command == NoCommand <==> !r.preventDefault) && (r.stopsPropagation ==> r.preventDefault)
  {
    EarlyOrCascade(ev, d, vis, mac);
    if CascadeBranch(ev, mac).Some? {
      BranchShape(CascadeBranch(ev, mac).value, ev, d);
    }
  }

  /** The same shape, for one branch of the cascade. */
  lemma BranchShape(b: Branch, ev: KeyEvent, d: Snapshot)
    ensures var r := BranchDecision(b, ev, d);
      (r.command == NoCommand <==> !r.preventDefault) && (r.stopsPropagation ==> r.preventDefault)
  {
  }

  /** While the overlay is visible, Escape only hides it, whatever else the page shows. */
  lemma EscapeHidesVisibleOverlay(ev: KeyEvent, d: Snapshot, mac: bool)
    requires IsEscapeKey(ev)
    ensures OnKeydown(ev, d, true, mac) == Decision(true, false, HideOverlay)
  {
  }

  /** Slash with the primary modifier and no Alt only toggles the overlay, before any other branch. */
  lemma SlashTogglesOverlay(ev: KeyEvent, d: Snapshot, vis: bool, mac: bool)
    requires WantsOverlay(ev, mac) && EscapeConsistent(ev)
    ensures OnKeydown(ev, d, vis, mac) == Decision(true, false, ToggleOverlay)
  {
  }

  /** Escape while an edit form is open and the overlay is hidden is swallowed on keydown, keyup and keypress. */
  lemma EscapeBlockedInEditForm(ev: KeyEvent, d: Snapshot, mac: bool)
    requires IsEscape(ev) && d.editFormOpen
    ensures OnKeydown(ev, d, false, mac) == Decision(true, true, BlockEscape)
    ensures OnKeyup(ev, d, false) == Decision(true, true, BlockEscape)
    ensures OnKeypress(ev, d, false) == Decision(true, true, BlockEscape)
  {
  }

  /** Only the edit form makes Escape swallowed; with the overlay hidden and no form, Escape goes to the page. */
  lemma EscapeBlockedOnlyInEditForm(ev: KeyEvent, d: Snapshot, vis: bool, mac: bool)
    requires ev.code == "Escape" && !d.editFormOpen && !vis
    ensures OnKeydown(ev, d, vis, mac) == Untouched
    ensures OnKeyup(ev, d, vis) == Untouched
    ensures OnKeypress(ev, d, vis) == Untouched
  {
  }

  /** Plain Enter and Alt+Enter are swallowed in a TEXTAREA exactly when the chat send button exists. */
  lemma ChatEnterSwallowed(ev: KeyEvent, d: Snapshot, vis: bool, mac: bool)
    requires IsChatEnter(ev) && ev.targetTag == Some("TEXTAREA") && EscapeConsistent(ev)
    ensures OnKeydown(ev, d, vis, mac).command == BlockChatEnter <==> d.chatSendButton
    ensures OnKeypress(ev, d, vis).command == BlockChatEnter <==> d.chatSendButton
    ensures !d.chatSendButton ==> OnKeydown(ev, d, vis, mac) == Untouched && OnKeypress(ev, d, vis) == Untouched
  {
  }

  /** Shift+N, Shift+I and Shift+V do nothing at all while the user is typing. */
  lemma TypingGuard(ev: KeyEvent, d: Snapshot, vis: bool, mac: bool)
    requires ShiftChord(ev) && (ev.code == "KeyN" || ev.code == "KeyI" || ev.code == "KeyV")
    requires IsTyping(d) && EscapeConsistent(ev)
    ensures OnKeydown(ev, d, vis, mac) == Untouched
  {
  }

  /**
   * Shift+N: an open visit or request dialog wins over the job page; the
   * scroll needs a job path; otherwise the "N" is typed.
   */
  lemma ShiftNPrecedence(ev: KeyEvent, d: Snapshot, vis: bool, mac: bool)
    requires ShiftChord(ev) && ev.code == "KeyN" && !IsTyping(d) && EscapeConsistent(ev)
    ensures OnKeydown(ev, d, vis, mac).command == SwitchToNotes <==> InVisitOrRequest(d)
    ensures OnKeydown(ev, d, vis, mac).command == ScrollToNotes <==> !InVisitOrRequest(d) && OnJobPage(d)
    ensures OnKeydown(ev, d, vis, mac) == Untouched <==> !InVisitOrRequest(d) && !OnJobPage(d)
  {
  }

  /** Shift+I acts exactly when a visit or request dialog is open. */
  lemma ShiftIOnlyInDialog(ev: KeyEvent, d: Snapshot, vis: bool, mac: bool)
    requires ShiftChord(ev) && ev.code == "KeyI" && !IsTyping(d) && EscapeConsistent(ev)
    ensures OnKeydown(ev, d, vis, mac) ==
      if InVisitOrRequest(d) then Decision(true, false, SwitchToInfo) else Untouched
  {
  }

  /** Shift+V acts exactly on a job path. */
  lemma ShiftVOnlyOnJobPage(ev: KeyEvent, d: Snapshot, vis: bool, mac: bool)
    requires ShiftChord(ev) && ev.code == "KeyV" && !IsTyping(d) && EscapeConsistent(ev)
    ensures OnKeydown(ev, d, vis, mac) ==
      if OnJobPage(d) then Decision(true, false, ScrollToVisits) else Untouched
  {
  }

  /**
   * Cmd/Ctrl+Enter resolves to exactly one action: the delete-note button,
   * else the chat send button from a TEXTAREA, else the save cascade.
   */
  lemma SaveComboPriority(ev: KeyEvent, d: Snapshot, vis: bool, mac: bool)
    requires ev.code == "Enter" && PrimaryChord(ev, mac) && EscapeConsistent(ev)
    ensures var r := OnKeydown(ev, d, vis, mac);
      r.preventDefault &&
      (r.command == ClickDeleteNote <==> InDeleteNoteDialog(d) && d.deleteNoteButton) &&
      (r.command == SendChat <==>
        !(InDeleteNoteDialog(d) && d.deleteNoteButton) && ev.targetTag == Some("TEXTAREA") && d.chatSendButton) &&
      (r.command == Save <==>
        !(InDeleteNoteDialog(d) && d.deleteNoteButton) && !(ev.targetTag == Some("TEXTAREA") && d.chatSendButton)) &&
      (r.stopsPropagation <==> r.command == SendChat)
  {
  }

  /** The five chord branches. */
  predicate IsChordBranch(b: Branch) {
    b == EditBranch || b == ReminderBranch || b == CrewBranch || b == InboxBranch || b == FeedBranch
  }

  /** A key matching one of the five chord branches passes the Escape, overlay and chat-Enter checks untouched. */
  lemma ChordPassesEarlyChecks(ev: KeyEvent, d: Snapshot, vis: bool, mac: bool)
    requires EscapeConsistent(ev)
    requires CascadeBranch(ev, mac).Some? && IsChordBranch(CascadeBranch(ev, mac).value)
    ensures OnKeydown(ev, d, vis, mac) == BranchDecision(CascadeBranch(ev, mac).value, ev, d)
  {
    ChordBranchCodes(ev, mac);
  }

  /** Whatever the listeners decide, it is an early check's command or the cascade's decision. */
  lemma EarlyOrCascade(ev: KeyEvent, d: Snapshot, vis: bool, mac: bool)
    ensures var r := OnKeydown(ev, d, vis, mac);
      r.command == BlockEscape || r.command == HideOverlay || r.command == ToggleOverlay ||
      r.command == BlockChatEnter || r == (match CascadeBranch(ev, mac) case None => Untouched case Some(b) => BranchDecision(b, ev, d))
  {
  }

  /** Each of the five chord commands comes from its own branch of the cascade and from nothing else. */
  lemma ChordCommandsFromBranches(ev: KeyEvent, d: Snapshot, vis: bool, mac: bool)
    requires EscapeConsistent(ev)
    ensures var c := OnKeydown(ev, d, vis, mac).command;
      (c == OpenEdit <==> CascadeBranch(ev, mac) == Some(EditBranch)) &&
      (c == OpenTextReminder <==> CascadeBranch(ev, mac) == Some(ReminderBranch)) &&
      (c == AssignCrew <==> CascadeBranch(ev, mac) == Some(CrewBranch)) &&
      (c == ToggleInbox <==> CascadeBranch(ev, mac) == Some(InboxBranch)) &&
      (c == ToggleFeed <==> CascadeBranch(ev, mac) == Some(FeedBranch))
  {
    var cb := CascadeBranch(ev, mac);
    if cb.Some? && IsChordBranch(cb.value) {
      ChordPassesEarlyChecks(ev, d, vis, mac);
    } else {
      EarlyOrCascade(ev, d, vis, mac);
    }
  }

  /**
   * E, T, A and Backslash: the command is chosen by key and exact chord alone,
   * whatever the dialog, focus or page; the context checks come later, when
   * the command runs.
   */
  lemma ChordCommandsIgnoreContext(ev: KeyEvent, d: Snapshot, vis: bool, mac: bool, i: nat)
    requires i < 5 && EscapeConsistent(ev)
    ensures var c := [OpenEdit, OpenTextReminder, AssignCrew, ToggleInbox, ToggleFeed][i];
      OnKeydown(ev, d, vis, mac).command == c <==> Selects(Bindings[i], ev, mac)
  {
    ChordRows();
    ChordCommandsFromBranches(ev, d, vis, mac);
    BranchIffExactChord(ev, mac, i);
  }

  /** A command the early checks did not produce is the decision of the cascade branch that matched. */
  lemma CascadeCommand(ev: KeyEvent, d: Snapshot, vis: bool, mac: bool)
    requires Dispatcher(ev, d, vis, mac).command !in {NoCommand, HideOverlay, ToggleOverlay, BlockChatEnter}
    ensures CascadeBranch(ev, mac).Some?
    ensures Dispatcher(ev, d, vis, mac) == BranchDecision(CascadeBranch(ev, mac).value, ev, d)
  {
  }

  /** The context guards of the Shift branches hold whenever those branches pick a command. */
  lemma BranchGuards(b: Branch, ev: KeyEvent, d: Snapshot)
    ensures var c := BranchDecision(b, ev, d).command;
      (c == SwitchToNotes || c == SwitchToInfo ==> InVisitOrRequest(d) && !IsTyping(d)) &&
      (c == ScrollToNotes || c == ScrollToVisits ==> OnJobPage(d) && !IsTyping(d)) &&
      (c == ScrollToNotes ==> !InVisitOrRequest(d))
  {
  }

  /** Cmd+Ctrl+Shift+E on a Mac selects nothing, not even the Edit command. */
  lemma ExtraModifierSelectsNothing(ev: KeyEvent, d: Snapshot, vis: bool)
    requires ev.code == "KeyE" && ev.metaKey && ev.ctrlKey && ev.shiftKey && !ev.altKey && EscapeConsistent(ev)
    ensures OnKeydown(ev, d, vis, true) == Untouched
  {
    ExtraShiftSelectsNothing(ev);
  }
}
