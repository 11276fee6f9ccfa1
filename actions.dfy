/**
 * `openEditDialog` and `openTextReminderDialog`: find the More Actions
 * button of the open Visit/Request dialog, decode its action list, pick the
 * first action that looks like Edit (resp. Text Reminder) and request its
 * dialog fragment. The JSON decoder and the HTML fragment parser are
 * parameters: `parse` returns None where `JSON.parse` throws, and `view`
 * gives the first anchor and the text content of one fragment.
 */
module ActionList {
  import opened Options
  import opened Text
  import opened Host

  /** The first `<a>` of a fragment: its `href` attribute (None when absent) and its `id`. */
  datatype Anchor = Anchor(href: Option<string>, id: string)

  /** One entry of the action list, once parsed as HTML. */
  datatype Fragment = Fragment(anchor: Option<Anchor>, text: string)

  datatype ActionKind = EditAction | TextReminderAction

  const NotInDialog: string := "Open the Visit or Request modal first."
  const NoButton: string := "More Actions button not found."
  const NoActions: string := "No actions found on button."
  const BadJson: string := "Could not parse actions JSON."

  function NotFound(kind: ActionKind): string {
    match kind
    case EditAction => "Edit action not found in actions."
    case TextReminderAction => "Text Reminder action not found."
  }

  /** The anchor's `href`, '' when there is no anchor or no attribute. */
  function Href(f: Fragment): string {
    if f.anchor.Some? then f.anchor.value.href.GetOr("") else ""
  }

  /** The per-entry test of each loop; both require an anchor. */
  predicate Matches(f: Fragment, kind: ActionKind) {
    f.anchor.Some? &&
    match kind
    case EditAction =>
      Contains(Normalize(f.text), "edit") || ContainsWord(Href(f), "/edit.dialog")
    case TextReminderAction =>
      f.anchor.value.id == "sms" || Contains(Normalize(f.text), "text reminder") ||
      ContainsWord(Href(f), "/comms/sms.dialog")
  }

  /** The entry the loop breaks at: the first from index `k` on that matches. */
  function FirstMatch(items: seq<string>, view: string -> Fragment, kind: ActionKind, k: nat := 0): (r: Option<nat>)
    ensures r.Some? ==> (k <= r.value < |items| && Matches(view(items[r.value]), kind) &&
      forall j :: k <= j < r.value ==> !Matches(view(items[j]), kind))
    ensures r.None? ==> forall j :: k <= j < |items| ==> !Matches(view(items[j]), kind)
    decreases |items| - k
  {
    if k >= |items| then None
    else if Matches(view(items[k]), kind) then Some(k)
    else FirstMatch(items, view, kind, k + 1)
  }

  /** What the loop and the test after it decide for a decoded list. */
  function Pick(items: seq<string>, view: string -> Fragment, kind: ActionKind): Effect {
    match FirstMatch(items, view, kind)
    case None => Notice(NotFound(kind))
    case Some(i) =>
      if Href(view(items[i])) == "" then Notice(NotFound(kind)) else Fetch(Href(view(items[i])))
  }

  /** The whole operation, from the page to the effect it asks for. */
  function ActionOutcome(d: Snapshot, parse: string -> Option<seq<string>>, view: string -> Fragment, kind: ActionKind): Effect {
    if !InVisitOrRequest(d) then Notice(NotInDialog)
    else if !d.moreActionsButton then Notice(NoButton)
    else if d.actionsAttribute.None? || d.actionsAttribute.value == "" then Notice(NoActions)
    else match parse(Unescape(d.actionsAttribute.value))
      case None => Notice(BadJson)
      case Some(items) => Pick(items, view, kind)
  }

  /** The source's steps, with its `for ... of` loop and `break`. */
  method OpenAction(d: Snapshot, parse: string -> Option<seq<string>>, view: string -> Fragment, kind: ActionKind)
    returns (e: Effect)
    ensures e == ActionOutcome(d, parse, view, kind)
  {
    var titleText := Normalize(d.dialogTitle.GetOr(""));
    if d.dialogTitle.None? || (titleText != "visit" && titleText != "request") {
      return Notice(NotInDialog);
    }
    if !d.moreActionsButton {
      return Notice(NoButton);
    }
    var raw := d.actionsAttribute.GetOr("");
    if raw == "" {
      return Notice(NoActions);
    }
    raw := ReplaceAll(ReplaceAll(raw, Quot, "\""), Amp, "&");
    var parsed := parse(raw);
    if parsed.None? {
      return Notice(BadJson);
    }
    var hit := ScanActions(parsed.value, view, kind);
    if hit.None? {
      return Notice(NotFound(kind));
    }
    var href := Href(view(parsed.value[hit.value]));
    if href == "" {
      e := Notice(NotFound(kind));
    } else {
      e := Fetch(href);
    }
  }

  /** The `for ... of` loop: it breaks at the first entry that matches. */
  method ScanActions(items: seq<string>, view: string -> Fragment, kind: ActionKind) returns (hit: Option<nat>)
    ensures hit == FirstMatch(items, view, kind)
  {
    hit := None;
    for i := 0 to |items|
      invariant hit == None
      invariant forall j :: 0 <= j < i ==> !Matches(view(items[j]), kind)
    {
      if Matches(view(items[i]), kind) {
        hit := Some(i);
        FirstMatchUnique(items, view, kind, i);
        return;
      }
    }
  }

  // ---------------------------------------------------------------------------
  // Properties
  // ---------------------------------------------------------------------------

  /**
   * A request is made only from a Visit/Request dialog with an action list
   * that decodes, and only for the first entry that matches; its `href` is
   * the one requested.
   */
  lemma {:induction false} FetchOnlyFromFirstMatch(d: Snapshot, parse: string -> Option<seq<string>>, view: string -> Fragment, kind: ActionKind, h: string)
    requires ActionOutcome(d, parse, view, kind) == Fetch(h)
    ensures InVisitOrRequest(d) && d.moreActionsButton
    ensures d.actionsAttribute.Some? && d.actionsAttribute.value != ""
    ensures parse(Unescape(d.actionsAttribute.value)).Some?
    ensures var items := parse(Unescape(d.actionsAttribute.value)).value;
      exists i | 0 <= i < |items| ::
        Matches(view(items[i]), kind) && Href(view(items[i])) == h && h != "" &&
        forall j :: 0 <= j < i ==> !Matches(view(items[j]), kind)
  {
    var items := parse(Unescape(d.actionsAttribute.value)).value;
    var i := FirstMatch(items, view, kind).value;
    assert Matches(view(items[i]), kind) && Href(view(items[i])) == h;
  }

  /** Conversely: the first entry that matches, with a non-empty `href`, is requested. */
  lemma FirstMatchIsFetched(d: Snapshot, parse: string -> Option<seq<string>>, view: string -> Fragment, kind: ActionKind, items: seq<string>, i: nat)
    requires InVisitOrRequest(d) && d.moreActionsButton
    requires d.actionsAttribute.Some? && d.actionsAttribute.value != ""
    requires parse(Unescape(d.actionsAttribute.value)) == Some(items)
    requires i < |items| && Matches(view(items[i]), kind) && Href(view(items[i])) != ""
    requires forall j :: 0 <= j < i ==> !Matches(view(items[j]), kind)
    ensures ActionOutcome(d, parse, view, kind) == Fetch(Href(view(items[i])))
  {
    FirstMatchUnique(items, view, kind, i);
  }

  /**
   * The loop stops at the first entry that matches even when that entry has
   * no usable `href`: a later entry that would do is never reached.
   */
  lemma FirstMatchWithoutHrefHidesLater(items: seq<string>, view: string -> Fragment, kind: ActionKind, i: nat)
    requires i < |items| && Matches(view(items[i]), kind) && Href(view(items[i])) == ""
    requires forall j :: 0 <= j < i ==> !Matches(view(items[j]), kind)
    ensures Pick(items, view, kind) == Notice(NotFound(kind))
  {
    FirstMatchUnique(items, view, kind, i);
  }

  /** An entry that matches, with no match before it, is the one the search finds. */
  lemma FirstMatchUnique(items: seq<string>, view: string -> Fragment, kind: ActionKind, i: nat)
    requires i < |items| && Matches(view(items[i]), kind)
    requires forall j :: 0 <= j < i ==> !Matches(view(items[j]), kind)
    ensures FirstMatch(items, view, kind) == Some(i)
  {
  }

  /**
   * A list escaped for the attribute reaches the decoder intact, so the
   * outcome is that of the list itself.
   */
  lemma {:induction false} EscapedListReachesDecoder(d: Snapshot, parse: string -> Option<seq<string>>, view: string -> Fragment, kind: ActionKind, json: string)
    requires InVisitOrRequest(d) && d.moreActionsButton
    requires json != [] && d.actionsAttribute == Some(Escape(json))
    ensures ActionOutcome(d, parse, view, kind) ==
      match parse(json)
      case None => Notice(BadJson)
      case Some(items) => Pick(items, view, kind)
  {
    assert Escape(json) == EscapeChar(json[0]) + Escape(json[1..]);
    assert Escape(json) != [];
    UnescapeInvertsEscape(json);
  }

  /** Every outcome other than a request is one of the five messages of its kind, and each guard fails in the order the checks run. */
  lemma FailuresAreNotices(d: Snapshot, parse: string -> Option<seq<string>>, view: string -> Fragment, kind: ActionKind)
    ensures ActionOutcome(d, parse, view, kind).Fetch? || ActionOutcome(d, parse, view, kind).Notice?
    ensures !InVisitOrRequest(d) ==> ActionOutcome(d, parse, view, kind) == Notice(NotInDialog)
    ensures InVisitOrRequest(d) && !d.moreActionsButton ==> ActionOutcome(d, parse, view, kind) == Notice(NoButton)
    ensures InVisitOrRequest(d) && d.moreActionsButton && (d.actionsAttribute.None? || d.actionsAttribute.value == "") ==>
      ActionOutcome(d, parse, view, kind) == Notice(NoActions)
    ensures (InVisitOrRequest(d) && d.moreActionsButton && d.actionsAttribute.Some? && d.actionsAttribute.value != "" &&
             parse(Unescape(d.actionsAttribute.value)).None?) ==>
      ActionOutcome(d, parse, view, kind) == Notice(BadJson)
    ensures (InVisitOrRequest(d) && d.moreActionsButton && d.actionsAttribute.Some? && d.actionsAttribute.value != "" &&
             parse(Unescape(d.actionsAttribute.value)).Some?) ==>
      var items := parse(Unescape(d.actionsAttribute.value)).value;
      (FirstMatch(items, view, kind).None? || Href(view(items[FirstMatch(items, view, kind).value])) == "") ==>
        ActionOutcome(d, parse, view, kind) == Notice(NotFound(kind))
    ensures ActionOutcome(d, parse, view, kind).Notice? ==>
      ActionOutcome(d, parse, view, kind).message in {NotInDialog, NoButton, NoActions, BadJson, NotFound(kind)}
  {
  }

  /** An anchor with id `sms` is a Text Reminder action whatever its text. */
  lemma SmsIdSelects(f: Fragment)
    requires f.anchor.Some? && f.anchor.value.id == "sms"
    ensures Matches(f, TextReminderAction)
  {
  }

  /** An Edit action found through its `.../edit.dialog` link in a Visit dialog. */
  lemma EditLinkScenario(d: Snapshot, parse: string -> Option<seq<string>>, view: string -> Fragment, html: string)
    requires InVisitOrRequest(d) && d.moreActionsButton
    requires d.actionsAttribute.Some? && d.actionsAttribute.value != ""
    requires parse(Unescape(d.actionsAttribute.value)) == Some([html])
    requires view(html) == Fragment(Some(Anchor(Some("/visits/7/edit.dialog"), "")), "Change")
    ensures ActionOutcome(d, parse, view, EditAction) == Fetch("/visits/7/edit.dialog")
  {
    var href := "/visits/7/edit.dialog";
    assert OccursAt(href, "/edit.dialog", 9) && 9 + |"/edit.dialog"| == |href|;
    assert ContainsWord(href, "/edit.dialog");
    FirstMatchIsFetched(d, parse, view, EditAction, [html], 0);
  }
}
