/**
 * `clickSaveButton`: the ordered search for what Cmd/Ctrl+Enter saves. The
 * SMS dialog's send button comes first, then the to-do form's save button,
 * then a note textarea: the one in the open modal, else the focused one,
 * else the first with non-blank text, else the first visible one.
 * `SaveTarget` states the order; `FindSaveTarget` is the source's loops.
 */
module SaveCascade {
  import opened Options
  import opened Text
  import opened Host

  datatype Target = SmsSend | TodoSave | NoteSave(note: NoteRef) | NoSaveTarget

  /** A note textarea can be saved: it has a container with a save button, and the container is not display:none. */
  predicate Eligible(n: NoteField) {
    n.container.Some? && n.container.value.hasSaveButton && !n.container.value.displayNone
  }

  /** The three passes over the document's note textareas, in the order they run. */
  datatype Pass = FocusedPass | NonBlankPass | VisiblePass

  predicate Qualifies(n: NoteField, pass: Pass) {
    Eligible(n) &&
    match pass
    case FocusedPass => n.focused
    case NonBlankPass => Trim(n.value) != ""
    case VisiblePass => true
  }

  /** The first textarea from index `k` on that qualifies in `pass`. */
  function FirstQualifying(notes: seq<NoteField>, pass: Pass, k: nat := 0): (r: Option<nat>)
    ensures r.Some? ==> (k <= r.value < |notes| && Qualifies(notes[r.value], pass) &&
      forall j :: k <= j < r.value ==> !Qualifies(notes[j], pass))
    ensures r.None? ==> forall j :: k <= j < |notes| ==> !Qualifies(notes[j], pass)
    decreases |notes| - k
  {
    if k >= |notes| then None
    else if Qualifies(notes[k], pass) then Some(k)
    else FirstQualifying(notes, pass, k + 1)
  }

  /** The modal strategy's condition: textarea, save button, and a container not display:none. */
  predicate ModalNoteUsable(d: Snapshot) {
    d.modalNote.Some? && d.modalNote.value.hasTextarea && d.modalNote.value.hasSaveButton &&
    !d.modalNote.value.displayNone
  }

  /** The target `clickSaveButton` settles on. */
  function SaveTarget(d: Snapshot): Target {
    if d.smsDialog && d.smsSendButton then SmsSend
    else if d.todoSaveButton then TodoSave
    else if ModalNoteUsable(d) then NoteSave(InModal)
    else match FirstQualifying(d.noteFields, FocusedPass)
      case Some(i) => NoteSave(Field(i))
      case None =>
        match FirstQualifying(d.noteFields, NonBlankPass)
        case Some(i) => NoteSave(Field(i))
        case None =>
          match FirstQualifying(d.noteFields, VisiblePass)
          case Some(i) => NoteSave(Field(i))
          case None => NoSaveTarget
  }

  /** The first index with a property is unique. */
  lemma FirstIsUnique(notes: seq<NoteField>, pass: Pass, i: nat)
    requires i < |notes| && Qualifies(notes[i], pass)
    requires forall j :: 0 <= j < i ==> !Qualifies(notes[j], pass)
    ensures FirstQualifying(notes, pass) == Some(i)
  {
  }

  /** One pass of the source: a `for` loop over the textareas that stops at the first that qualifies. */
  method ScanNotes(notes: seq<NoteField>, pass: Pass) returns (found: Option<nat>)
    ensures found == FirstQualifying(notes, pass)
  {
    found := None;
    for i := 0 to |notes|
      invariant found == None
      invariant forall j :: 0 <= j < i ==> !Qualifies(notes[j], pass)
    {
      var n := notes[i];
      var eligible := n.container.Some? && n.container.value.hasSaveButton && !n.container.value.displayNone;
      var wanted := match pass
        case FocusedPass => n.focused
        case NonBlankPass => Trim(n.value) != ""
        case VisiblePass => true;
      if wanted && eligible {
        found := Some(i);
        FirstIsUnique(notes, pass, i);
        return;
      }
    }
  }

  /** `clickSaveButton`'s search, step by step as the source runs it. */
  method FindSaveTarget(d: Snapshot) returns (t: Target)
    ensures t == SaveTarget(d)
  {
    if d.smsDialog && d.smsSendButton {
      return SmsSend;
    }
    if d.todoSaveButton {
      return TodoSave;
    }
    if d.modalNote.Some? {
      var m := d.modalNote.value;
      if m.hasTextarea && m.hasSaveButton && !m.displayNone {
        return NoteSave(InModal);
      }
    }
    var active := ScanNotes(d.noteFields, FocusedPass);
    if active.None? {
      active := ScanNotes(d.noteFields, NonBlankPass);
    }
    if active.None? {
      active := ScanNotes(d.noteFields, VisiblePass);
    }
    if active.Some? {
      t := NoteSave(Field(active.value));
    } else {
      t := NoSaveTarget;
    }
  }

  // ---------------------------------------------------------------------------
  // Properties of the cascade
  // ---------------------------------------------------------------------------

  /** A note textarea is chosen only if it can be saved, and then by the first pass that finds one. */
  lemma {:induction false} ChosenNoteIsEligible(d: Snapshot, i: nat)
    requires SaveTarget(d) == NoteSave(Field(i))
    ensures i < |d.noteFields| && Eligible(d.noteFields[i])
    ensures !(d.smsDialog && d.smsSendButton) && !d.todoSaveButton && !ModalNoteUsable(d)
    ensures d.noteFields[i].focused || forall j :: 0 <= j < |d.noteFields| ==> !Qualifies(d.noteFields[j], FocusedPass)
  {
    var f := FirstQualifying(d.noteFields, FocusedPass);
    if f.None? {
      var b := FirstQualifying(d.noteFields, NonBlankPass);
      if b.None? {
        var v := FirstQualifying(d.noteFields, VisiblePass);
        assert v == Some(i);
      }
    }
  }

  /**
   * The cascade comes up empty exactly when nothing qualifies: no SMS send
   * button, no to-do save button, no usable modal note, and no textarea that
   * can be saved at all.
   */
  lemma {:induction false} NothingToSave(d: Snapshot)
    ensures SaveTarget(d) == NoSaveTarget <==>
      !(d.smsDialog && d.smsSendButton) && !d.todoSaveButton && !ModalNoteUsable(d) &&
      forall j :: 0 <= j < |d.noteFields| ==> !Eligible(d.noteFields[j])
  {
    var v := FirstQualifying(d.noteFields, VisiblePass);
    if v.Some? {
      var f := FirstQualifying(d.noteFields, FocusedPass);
      var b := FirstQualifying(d.noteFields, NonBlankPass);
      assert SaveTarget(d) != NoSaveTarget by {
        if f.None? && b.None? {
          assert SaveTarget(d) == NoteSave(Field(v.value)) || !(!(d.smsDialog && d.smsSendButton) && !d.todoSaveButton && !ModalNoteUsable(d));
        }
      }
    } else {
      forall j | 0 <= j < |d.noteFields| ensures !Eligible(d.noteFields[j]) {
        assert !Qualifies(d.noteFields[j], VisiblePass);
      }
      forall j | 0 <= j < |d.noteFields| ensures !Qualifies(d.noteFields[j], FocusedPass) && !Qualifies(d.noteFields[j], NonBlankPass) {
        assert !Eligible(d.noteFields[j]);
      }
    }
  }

  /** A focused textarea that can be saved wins over one with more text, when no modal note is usable. */
  lemma FocusedBeatsNonBlank(d: Snapshot, i: nat)
    requires !(d.smsDialog && d.smsSendButton) && !d.todoSaveButton && !ModalNoteUsable(d)
    requires i < |d.noteFields| && Eligible(d.noteFields[i]) && d.noteFields[i].focused
    requires forall j :: 0 <= j < |d.noteFields| && j != i ==> !d.noteFields[j].focused
    ensures SaveTarget(d) == NoteSave(Field(i))
  {
    FirstIsUnique(d.noteFields, FocusedPass, i);
  }
}
