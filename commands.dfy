/**
 * The page operations the dispatcher's commands run: what each asks of the
 * page (`Execute`), and the source's own steps (`RunCommand` and the searches
 * it calls), proved to ask for the same.
 */
module Commands {
  import opened Options
  import opened Text
  import opened Host
  import opened Keys
  import opened Dispatch
  import opened ActionList
  import opened SaveCascade

  const NoNotesTab: string := "Notes tab not found."
  const NoInfoTab: string := "Info tab not found."
  const NoCrewButton: string := "Assign Crew button not found in this modal."
  const NoInbox: string := "Text message inbox button not found"
  const NoFeed: string := "Activity feed button not found"
  const NoSave: string := "Save button not found on this page"
  const InternalNotes: string := "internal notes"
  const Visits: string := "visits"

  // ---------------------------------------------------------------------------
  // Assign Crew
  // ---------------------------------------------------------------------------

  /** Whether the Assign Crew selector with index `k` matches. */
  predicate Hit(h: CrewHits, k: nat) {
    (k == 0 && h.labelled) || (k == 1 && h.spotlight) || (k == 2 && h.crewClass) || (k == 3 && h.classSubstring)
  }

  /** The selector whose element is clicked: the first of the four that matches. */
  function CrewSelector(h: CrewHits): (r: Option<nat>)
    ensures r.Some? ==> r.value < 4 && Hit(h, r.value) && forall j :: 0 <= j < r.value ==> !Hit(h, j)
    ensures r.None? <==> !(h.labelled || h.spotlight || h.crewClass || h.classSubstring)
  {
    if h.labelled then Some(0)
    else if h.spotlight then Some(1)
    else if h.crewClass then Some(2)
    else if h.classSubstring then Some(3)
    else None
  }

  /** `assignCrew`: silent outside a visit dialog and an edit form. */
  function CrewOutcome(d: Snapshot): Effect {
    if !InAnyVisitDialog(d) && !d.editFormOpen then NoEffect
    else match CrewSelector(d.crewButton)
      case None => Notice(NoCrewButton)
      case Some(k) => Click(CrewButton(k))
  }

  // ---------------------------------------------------------------------------
  // Card titles of the job page
  // ---------------------------------------------------------------------------

  predicate TitleIs(t: CardTitle, name: string) {
    Normalize(t.text) == name
  }

  /** The first card title from index `k` on whose text normalises to `name`. */
  function FirstTitled(titles: seq<CardTitle>, name: string, k: nat := 0): (r: Option<nat>)
    ensures r.Some? ==> (k <= r.value < |titles| && TitleIs(titles[r.value], name) &&
      forall j :: k <= j < r.value ==> !TitleIs(titles[j], name))
    ensures r.None? ==> forall j :: k <= j < |titles| ==> !TitleIs(titles[j], name)
    decreases |titles| - k
  {
    if k >= |titles| then None
    else if TitleIs(titles[k], name) then Some(k)
    else FirstTitled(titles, name, k + 1)
  }

  /** The scroll operations: silent off a job page, when the card is missing, or when its title is not inside a card. */
  function ScrollOutcome(d: Snapshot, name: string): Effect {
    if !OnJobPage(d) then NoEffect
    else match FirstTitled(d.cardTitles, name)
      case None => NoEffect
      case Some(i) => if d.cardTitles[i].inCard then ScrollTo(i) else NoEffect
  }

  // ---------------------------------------------------------------------------
  // All commands
  // ---------------------------------------------------------------------------

  function SaveOutcome(d: Snapshot): Effect {
    match SaveTarget(d)
    case SmsSend => Click(SmsSendButton)
    case TodoSave => Click(TodoSaveButton)
    case NoteSave(n) => SaveNote(n)
    case NoSaveTarget => Notice(NoSave)
  }

  /** What running a command asks of the page. The overlay commands act on the overlay, not the page. */
  function Execute(cmd: Command, d: Snapshot, parse: string -> Option<seq<string>>, view: string -> Fragment): Effect {
    match cmd
    case OpenEdit => ActionOutcome(d, parse, view, EditAction)
    case OpenTextReminder => ActionOutcome(d, parse, view, TextReminderAction)
    case AssignCrew => CrewOutcome(d)
    case ToggleInbox => if d.inboxButton then Click(InboxButton) else Notice(NoInbox)
    case ToggleFeed => if d.feedButton then Click(FeedButton) else Notice(NoFeed)
    case SwitchToNotes =>
      if !InVisitOrRequest(d) then Notice(NotInDialog)
      else if !d.notesTab then Notice(NoNotesTab)
      else OpenNotes(d.notesTextarea)
    case SwitchToInfo =>
      if !InVisitOrRequest(d) then Notice(NotInDialog)
      else if !d.infoTab then Notice(NoInfoTab)
      else Click(InfoTab)
    case ScrollToNotes => ScrollOutcome(d, InternalNotes)
    case ScrollToVisits => ScrollOutcome(d, Visits)
    case ClickDeleteNote => Click(DeleteNoteButton)
    case SendChat => Click(ChatSendButton)
    case Save => SaveOutcome(d)
    case _ => NoEffect
  }

  // ---------------------------------------------------------------------------
  // The source's steps
  // ---------------------------------------------------------------------------

  /** `scrollToInternalNotesCard`'s loop over the card titles, breaking at the first match. */
  method FindCard(titles: seq<CardTitle>, name: string) returns (found: Option<nat>)
    ensures found == FirstTitled(titles, name)
  {
    found := None;
    for i := 0 to |titles|
      invariant found == None
      invariant forall j :: 0 <= j < i ==> !TitleIs(titles[j], name)
    {
      if TitleIs(titles[i], name) {
        found := Some(i);
        FirstTitledUnique(titles, name, i);
        return;
      }
    }
  }

  /**
   * `scrollToVisitsCard`: the first card title is tried on its own before
   * the loop; both routes settle on the first title that says "visits".
   */
  method FindVisitsCard(titles: seq<CardTitle>) returns (found: Option<nat>)
    ensures found == FirstTitled(titles, Visits)
  {
    if |titles| > 0 && TitleIs(titles[0], Visits) {
      return Some(0);
    }
    found := FindCard(titles, Visits);
  }

  /** An index whose predecessors all fail is the one the search finds. */
  lemma FirstTitledUnique(titles: seq<CardTitle>, name: string, i: nat)
    requires i < |titles| && TitleIs(titles[i], name)
    requires forall j :: 0 <= j < i ==> !TitleIs(titles[j], name)
    ensures FirstTitled(titles, name) == Some(i)
  {
  }

  /** The four Assign Crew selectors, tried in turn. */
  method FindCrewButton(h: CrewHits) returns (found: Option<nat>)
    ensures found == CrewSelector(h)
  {
    found := None;
    if h.labelled {
      found := Some(0);
    }
    if found.None? && h.spotlight {
      found := Some(1);
    }
    if found.None? && h.crewClass {
      found := Some(2);
    }
    if found.None? && h.classSubstring {
      found := Some(3);
    }
  }

  /** `assignCrew`. */
  method RunAssignCrew(d: Snapshot) returns (e: Effect)
    ensures e == CrewOutcome(d)
  {
    if !InAnyVisitDialog(d) && !d.editFormOpen {
      return NoEffect;
    }
    var k := FindCrewButton(d.crewButton);
    e := if k.Some? then Click(CrewButton(k.value)) else Notice(NoCrewButton);
  }

  /** `scrollToInternalNotesCard`. */
  method RunScrollToNotes(d: Snapshot) returns (e: Effect)
    ensures e == ScrollOutcome(d, InternalNotes)
  {
    if !OnJobPage(d) {
      return NoEffect;
    }
    var i := FindCard(d.cardTitles, InternalNotes);
    e := if i.Some? && d.cardTitles[i.value].inCard then ScrollTo(i.value) else NoEffect;
  }

  /** `scrollToVisitsCard`. */
  method RunScrollToVisits(d: Snapshot) returns (e: Effect)
    ensures e == ScrollOutcome(d, Visits)
  {
    if !OnJobPage(d) {
      return NoEffect;
    }
    var i := FindVisitsCard(d.cardTitles);
    e := if i.Some? && d.cardTitles[i.value].inCard then ScrollTo(i.value) else NoEffect;
  }

  method RunCommand(cmd: Command, d: Snapshot, parse: string -> Option<seq<string>>, view: string -> Fragment)
    returns (e: Effect)
    ensures e == Execute(cmd, d, parse, view)
  {
    match cmd {
      case OpenEdit =>
        e := OpenAction(d, parse, view, EditAction);
      case OpenTextReminder =>
        e := OpenAction(d, parse, view, TextReminderAction);
      case AssignCrew =>
        e := RunAssignCrew(d);
      case ToggleInbox =>
        e := if d.inboxButton then Click(InboxButton) else Notice(NoInbox);
      case ToggleFeed =>
        e := if d.feedButton then Click(FeedButton) else Notice(NoFeed);
      case SwitchToNotes =>
        if !InVisitOrRequest(d) {
          return Notice(NotInDialog);
        }
        e := if d.notesTab then OpenNotes(d.notesTextarea) else Notice(NoNotesTab);
      case SwitchToInfo =>
        if !InVisitOrRequest(d) {
          return Notice(NotInDialog);
        }
        e := if d.infoTab then Click(InfoTab) else Notice(NoInfoTab);
      case ScrollToNotes =>
        e := RunScrollToNotes(d);
      case ScrollToVisits =>
        e := RunScrollToVisits(d);
      case ClickDeleteNote =>
        e := Click(DeleteNoteButton);
      case SendChat =>
        e := Click(ChatSendButton);
      case Save =>
        var t := FindSaveTarget(d);
        e := match t
          case SmsSend => Click(SmsSendButton)
          case TodoSave => Click(TodoSaveButton)
          case NoteSave(n) => SaveNote(n)
          case NoSaveTarget => Notice(NoSave);
      case _ =>
        e := NoEffect;
    }
  }

  // ---------------------------------------------------------------------------
  // Properties
  // ---------------------------------------------------------------------------

  /** Assign Crew clicks the first matching selector, says so when none match, and is silent out of context. */
  lemma CrewClicksFirstHit(d: Snapshot, k: nat)
    ensures CrewOutcome(d) == Click(CrewButton(k)) <==>
      (InAnyVisitDialog(d) || d.editFormOpen) && k < 4 && Hit(d.crewButton, k) &&
      forall j :: 0 <= j < k ==> !Hit(d.crewButton, j)
    ensures CrewOutcome(d) == NoEffect <==> !InAnyVisitDialog(d) && !d.editFormOpen
  {
    if (InAnyVisitDialog(d) || d.editFormOpen) && k < 4 && Hit(d.crewButton, k) &&
      forall j :: 0 <= j < k ==> !Hit(d.crewButton, j)
    {
      assert CrewSelector(d.crewButton) == Some(k);
    }
  }

  /**
   * A scroll asks for exactly the first card titled `name`, when it is in a
   * card and the page is a job page.
   */
  lemma ScrollTargetsFirstTitledCard(d: Snapshot, name: string, i: nat)
    ensures ScrollOutcome(d, name) == ScrollTo(i) <==>
      OnJobPage(d) && i < |d.cardTitles| && TitleIs(d.cardTitles[i], name) && d.cardTitles[i].inCard &&
      forall j :: 0 <= j < i ==> !TitleIs(d.cardTitles[j], name)
  {
    if OnJobPage(d) && i < |d.cardTitles| && TitleIs(d.cardTitles[i], name) &&
      forall j :: 0 <= j < i ==> !TitleIs(d.cardTitles[j], name)
    {
      FirstTitledUnique(d.cardTitles, name, i);
    }
  }

  /** Save reports a missing button exactly when the cascade finds nothing to save. */
  lemma SaveNoticeIffNothing(d: Snapshot)
    ensures SaveOutcome(d).Notice? <==>
      !(d.smsDialog && d.smsSendButton) && !d.todoSaveButton && !ModalNoteUsable(d) &&
      forall j :: 0 <= j < |d.noteFields| ==> !Eligible(d.noteFields[j])
  {
    NothingToSave(d);
  }

  /**
   * The operations re-check the context the dispatcher already checked: a
   * tab switch or scroll chosen by the dispatcher never fails that re-check.
   */
  lemma DispatchedGuardsHold(ev: KeyEvent, d: Snapshot, vis: bool, mac: bool,
                              parse: string -> Option<seq<string>>, view: string -> Fragment)
    requires Dispatcher(ev, d, vis, mac).command in {SwitchToNotes, SwitchToInfo}
    ensures Execute(Dispatcher(ev, d, vis, mac).command, d, parse, view) != Notice(NotInDialog)
    ensures InVisitOrRequest(d) && !IsTyping(d)
  {
    CascadeCommand(ev, d, vis, mac);
    BranchGuards(CascadeBranch(ev, mac).value, ev, d);
  }

  lemma DispatchedScrollsOnJobPage(ev: KeyEvent, d: Snapshot, vis: bool, mac: bool)
    requires Dispatcher(ev, d, vis, mac).command in {ScrollToNotes, ScrollToVisits}
    ensures OnJobPage(d) && !IsTyping(d)
    ensures Dispatcher(ev, d, vis, mac).command == ScrollToNotes ==> !InVisitOrRequest(d)
  {
    CascadeCommand(ev, d, vis, mac);
    BranchGuards(CascadeBranch(ev, mac).value, ev, d);
  }

  /** Which commands can touch which controls: a request comes only from the two action commands, a save only from Save. */
  lemma EffectsBelongToTheirCommands(cmd: Command, d: Snapshot, parse: string -> Option<seq<string>>, view: string -> Fragment)
    ensures Execute(cmd, d, parse, view).Fetch? ==> cmd in {OpenEdit, OpenTextReminder}
    ensures Execute(cmd, d, parse, view).SaveNote? ==> cmd == Save
    ensures Execute(cmd, d, parse, view).ScrollTo? ==> cmd in {ScrollToNotes, ScrollToVisits} && OnJobPage(d)
    ensures cmd in {NoCommand, BlockEscape, HideOverlay, ToggleOverlay, BlockChatEnter} ==> Execute(cmd, d, parse, view) == NoEffect
  {
  }
}
