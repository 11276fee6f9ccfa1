/**
 * The host document, abstracted to a snapshot of what the listeners query,
 * the context guards computed from it, and the effects a command asks of it.
 * Each snapshot field records the result of one DOM lookup of the source.
 */
module Host {
  import opened Options
  import opened Text

  /** The focused element, `document.activeElement`. */
  datatype Element = Element(tagName: string, isContentEditable: bool)

  /** The `.js-noteContainer` around a note textarea. `displayNone`: its computed `display` is 'none'. */
  datatype NoteContainer = NoteContainer(hasSaveButton: bool, displayNone: bool)

  /** A `textarea[name="note[message]"]` of the document, in document order. */
  datatype NoteField = NoteField(focused: bool, value: string, container: Option<NoteContainer>)

  /** The first `.js-noteContainer` of the first open modal, with its textarea and save button. */
  datatype ModalNote = ModalNote(hasTextarea: bool, hasSaveButton: bool, displayNone: bool)

  /** A `.card-headerTitle`, in document order; `inCard`: it has an enclosing `div.card`. */
  datatype CardTitle = CardTitle(text: string, inCard: bool)

  /**
   * Which of the four Assign Crew selectors match in the dialog, in the order
   * they are tried: with the aria-label, `div.js-crewButton.js-spotlightCrew`,
   * `.js-crewButton`, and a class attribute containing `js-crewButton`.
   */
  datatype CrewHits = CrewHits(labelled: bool, spotlight: bool, crewClass: bool, classSubstring: bool)

  datatype Snapshot = Snapshot(
    dialogTitle: Option<string>,       // textContent of `.dialog-title.js-dialogTitle`
    activeElement: Option<Element>,
    pathname: string,                  // window.location.pathname
    editFormOpen: bool,                // form.to_do[id^="edit_to_do_"]
    chatSendButton: bool,              // button[aria-label="send"]
    deleteNoteButton: bool,            // .button.button--red.js-deleteNote
    smsDialog: bool,                   // .js-sendToClientDialogSms
    smsSendButton: bool,               // its form-submit button
    todoSaveButton: bool,              // the green js-formSubmit of form.to_do
    modalNote: Option<ModalNote>,      // None: no modal, or no note container in it
    noteFields: seq<NoteField>,
    moreActionsButton: bool,           // the dialog's js-dropdownButton
    actionsAttribute: Option<string>,  // its data-action-button-actions attribute
    notesTab: bool,                    // tab-bar-tab[data-target=".js-notesSection"]
    notesTextarea: bool,               // the dialog's note textarea, looked up after the tab switch
    infoTab: bool,                     // tab-bar-tab[data-target=".js-infoSection"]
    crewButton: CrewHits,
    inboxButton: bool,                 // button[aria-label="Open Text Message Inbox"]
    feedButton: bool,                  // #js-openNotifications
    cardTitles: seq<CardTitle>)

  // ---------------------------------------------------------------------------
  // Context guards
  // ---------------------------------------------------------------------------

  /** The normalised dialog title, '' when there is no title element. */
  function TitleText(d: Snapshot): string {
    Normalize(d.dialogTitle.GetOr(""))
  }

  /** A "visit" or "request" dialog is open: the guard of Edit, Text Reminder and the two tab switches. */
  predicate InVisitOrRequest(d: Snapshot) {
    d.dialogTitle.Some? && (TitleText(d) == "visit" || TitleText(d) == "request")
  }

  /** The wider guard of Assign Crew: also the "edit visit" and "edit request" dialogs. */
  predicate InAnyVisitDialog(d: Snapshot) {
    d.dialogTitle.Some? &&
    (TitleText(d) == "visit" || TitleText(d) == "request" ||
     TitleText(d) == "edit visit" || TitleText(d) == "edit request")
  }

  /** The "delete note?" confirmation is showing. */
  predicate InDeleteNoteDialog(d: Snapshot) {
    d.dialogTitle.Some? && TitleText(d) == "delete note?"
  }

  /** The typing guard: focus is in an INPUT, TEXTAREA or SELECT, or in a contentEditable element. */
  predicate IsTyping(d: Snapshot) {
    d.activeElement.Some? &&
    (d.activeElement.value.tagName == "INPUT" || d.activeElement.value.tagName == "TEXTAREA" ||
     d.activeElement.value.tagName == "SELECT" || d.activeElement.value.isContentEditable)
  }

  predicate OnJobPage(d: Snapshot) {
    IsJobPath(d.pathname)
  }

  /** The dialog titles the guards recognise are mutually exclusive. */
  lemma DialogTitlesExclusive(d: Snapshot)
    ensures !(InVisitOrRequest(d) && InDeleteNoteDialog(d))
    ensures InVisitOrRequest(d) ==> InAnyVisitDialog(d)
  {
  }

  // ---------------------------------------------------------------------------
  // What a command asks of the page
  // ---------------------------------------------------------------------------

  datatype Control =
    | InboxButton | FeedButton | InfoTab | CrewButton(selector: nat)  // the index of the selector that matched
    | DeleteNoteButton | ChatSendButton | SmsSendButton | TodoSaveButton

  /** Which note textarea the save cascade settles on. */
  datatype NoteRef = InModal | Field(index: nat)

  datatype Effect =
    | NoEffect                       // nothing but console output
    | Notice(message: string)        // an `alert`
    | Click(control: Control)
    | OpenNotes(focusNote: bool)     // click the Notes tab; later focus its textarea if there is one
    | Fetch(href: string)            // the dialog-fragment request
    | SaveNote(note: NoteRef)        // focus, fire input/change/keyup/blur, later click its save button
    | ScrollTo(card: nat)            // scroll the card of the card title at this index
}
