# Jobber keyboard shortcuts: a verified model of the key-event dispatch

The userscript `jobber-keyboard-shortcuts-manual-install.js` installs capture-phase
keyboard listeners on the Jobber web application. Each listener reads a key
event and the page, then does one of three things: leaves the event to the page,
swallows it, or runs one page operation. The operations are:
- open a visit's Edit or Text Reminder dialog;
- assign crew;
- toggle the message inbox or the activity feed;
- switch dialog tabs;
- scroll the job page to a card;
- press the right Save, Send or Delete button;
- show or hide the shortcut help overlay.

This project models that dispatch in Dafny and proves the following:
- The keydown cascade picks a branch exactly when its key is pressed with exactly
  its modifier chord (`Keys`).
- The context guards and the priority rules behave as described (`Dispatch`).
- Each page operation asks the page for the right thing (`ActionList`,
  `SaveCascade`, `Commands`).
- The overlay keeps the body's scroll lock consistent (`Overlay`, `Listener`).

The page is a value, `Host.Snapshot`. Each of its fields is the result of one DOM
query of the source: the dialog title, the focused element, the path, which
buttons exist, the note textareas and the card titles. A listener is a function
from an event and a snapshot to a `Dispatch.Decision`. The decision records:
- whether `preventDefault` is called;
- whether propagation is stopped (the source always calls `stopPropagation` and
  `stopImmediatePropagation` together);
- which command runs.

`Commands.Execute` says what a command asks of the page, as a `Host.Effect`.
`Commands.RunCommand` follows the source's own steps, including its loops, and is
proved to ask for the same effect. The help overlay is the one piece of mutable
state the script keeps, so it is a class, `Overlay.HelpOverlay`.

Modules, one per file:
- `options.dfy` `Options`: the Option type.
- `text.dfy` `Text`:
  - `normalizeText`, modelled as JavaScript `trim` followed by lower-casing;
  - substring tests;
  - the `\b` and `/work_orders/\d+` regular expressions;
  - the `&quot;` / `&amp;` un-escaping of the action list.
- `keys.dfy` `Keys`: key events, the modifier chords, the cascade, and the same
  cascade as a table of exact chords.
- `host.dfy` `Host`: the page snapshot, the context guards, and the effects.
- `dispatch.dfy` `Dispatch`: the keydown, keyup and keypress listeners.
- `actions.dfy` `ActionList`: `openEditDialog` and `openTextReminderDialog`.
- `save.dfy` `SaveCascade`: the search of `clickSaveButton`.
- `commands.dfy` `Commands`: every command's operation.
- `overlay.dfy` `Overlay`: the help overlay.
- `listener.dfy` `Listener`: the keydown path end to end, including the overlay.

Two points where the model follows the code over the description:
- The help overlay's text lists "CTRL + E", "CTRL + T" and "CTRL + A" for
  non-Mac platforms. The code requires Ctrl+Alt with those keys, and the model
  uses the code's chords.
- The header comment says CMD + ? opens the help overlay. The code tests the
  physical Slash key with the primary modifier and without Alt. It allows the
  extra Shift that typing "?" needs. On a Mac it also allows an extra Ctrl, and
  elsewhere an extra Meta, because only the primary modifier's flag is tested.

Two more behaviours of the source that the model keeps:
- The Escape blocker is registered on `document` before the main keydown
  listener, and it stops immediate propagation. So when it fires, the main
  listener never runs. While the help overlay is visible, the blocker stands
  aside.
- The action-list loop stops at the first entry that matches, even when that
  entry has no usable `href`. It then reports the action as not found, though a
  later entry might have worked (`ActionList.FirstMatchWithoutHrefHidesLater`).

## Model

| member | source | states |
|---|---|---|
| Text.TrimCutsWhitespace | jobber-keyboard-shortcuts-manual-install.js:42 | trim keeps a slice of the input with only whitespace cut on each side (the JavaScript trim set), and a non-empty result neither starts nor ends with whitespace |
| Text.LowerPointwise | jobber-keyboard-shortcuts-manual-install.js:42 | lower-casing keeps the length and maps each character on its own |
| Text.LowerKeepsWhitespace | jobber-keyboard-shortcuts-manual-install.js:42 | lower-casing neither creates nor removes whitespace |
| Text.TrimOfTrimmed | jobber-keyboard-shortcuts-manual-install.js:42 | text that neither starts nor ends with whitespace is unchanged by trim |
| Text.NormalizeIdempotent | jobber-keyboard-shortcuts-manual-install.js:42 | normalising twice equals normalising once |
| Text.JobPathUnanchored | jobber-keyboard-shortcuts-manual-install.js:1040 | the job-page route test is unanchored: any text before or after a job path keeps it a job path |
| Text.ReplaceAllNoMatch | jobber-keyboard-shortcuts-manual-install.js:326 | a global literal replace leaves text without an occurrence of the pattern unchanged |
| Text.ReplaceAllSkips | jobber-keyboard-shortcuts-manual-install.js:326 | a prefix with no `&` passes unchanged through a replace whose pattern starts with `&` |
| Text.AmpPassesQuotScan | jobber-keyboard-shortcuts-manual-install.js:326 | the `&quot;` pass copies an `&amp;` unchanged |
| Text.QuotPassRestoresQuotes | jobber-keyboard-shortcuts-manual-install.js:326 | on escaped text the `&quot;` pass restores exactly the double quotes |
| Text.AmpPassRestoresAmpersands | jobber-keyboard-shortcuts-manual-install.js:326 | the `&amp;` pass then restores exactly the ampersands |
| Text.UnescapeInvertsEscape | jobber-keyboard-shortcuts-manual-install.js:326 | un-escaping `&quot;` first and `&amp;` second gives back exactly the text that was escaped |
| Text.EscapePlain | jobber-keyboard-shortcuts-manual-install.js:326 | text with no `&` and no `"` is its own escaped form |
| Text.AmpFirstWouldNotInvert | jobber-keyboard-shortcuts-manual-install.js:326 | the opposite order would turn an escaped literal `&quot;` into `"` |
| Keys.Held | jobber-keyboard-shortcuts-manual-install.js:928-929 | a modifier is in the held set exactly when its event flag is set |
| Keys.Mods | jobber-keyboard-shortcuts-manual-install.js:927-1051 | a chord's modifier set holds exactly the modifiers the chord marks as held |
| Keys.Lookup | jobber-keyboard-shortcuts-manual-install.js:927-1081 | a first-match table lookup returns the branch of a row that selects the event, and None only when no row does |
| Keys.BindingsUnambiguous | jobber-keyboard-shortcuts-manual-install.js:927-1051 | no two chord rows share both key and exact modifier set, on either platform |
| Keys.BindingsDistinctBranches | jobber-keyboard-shortcuts-manual-install.js:927-1051 | each branch of the cascade has exactly one row |
| Keys.HeldExactlyIsHeld | jobber-keyboard-shortcuts-manual-install.js:928-929 | the flag-by-flag chord test holds if and only if the held set equals the chord's modifier set |
| Keys.LookupTail | jobber-keyboard-shortcuts-manual-install.js:963-1051 | from the Shift rows on, the table lookup is the Shift+N, Shift+I, Shift+V and Cmd/Ctrl+Enter part of the chain |
| Keys.CascadeIsBindingTable | jobber-keyboard-shortcuts-manual-install.js:927-1051 | the if/else-if chain selects exactly what the table of exact chords selects |
| Keys.AtMostOneRowSelects | jobber-keyboard-shortcuts-manual-install.js:927-1051 | at most one row matches any event |
| Keys.BranchIffExactChord | jobber-keyboard-shortcuts-manual-install.js:927-1051 | a branch is taken if and only if its key is pressed with exactly its platform's chord |
| Keys.ChordRows | jobber-keyboard-shortcuts-manual-install.js:927-960 | the first five rows are the Edit, Text Reminder, Assign Crew, inbox and feed branches, in that order |
| Keys.ChordBranchCodes | jobber-keyboard-shortcuts-manual-install.js:927-960 | only the E, T, A and Backslash keys reach those five branches |
| Keys.BackslashVariantsDisjoint | jobber-keyboard-shortcuts-manual-install.js:948-960 | the inbox chord and the activity-feed chord never both hold |
| Keys.ExtraShiftSelectsNothing | jobber-keyboard-shortcuts-manual-install.js:928 | Cmd+Ctrl+Shift+E on a Mac selects no branch |
| Host.DialogTitlesExclusive | jobber-keyboard-shortcuts-manual-install.js:1054-1056 | a dialog cannot be both a visit/request dialog and the delete-note confirmation, and the visit/request guard implies the wider Assign Crew guard |
| Dispatch.DecisionShape | jobber-keyboard-shortcuts-manual-install.js:850-1082 | keydown either leaves the event alone or prevents its default while acting, and it stops propagation only when it also prevents the default |
| Dispatch.BranchShape | jobber-keyboard-shortcuts-manual-install.js:927-1081 | each branch of the cascade either leaves the event alone or prevents its default while acting, and stops propagation only when preventing the default |
| Dispatch.EscapeHidesVisibleOverlay | jobber-keyboard-shortcuts-manual-install.js:875-879 | while the overlay is visible, Escape only hides it, whatever the page shows |
| Dispatch.SlashTogglesOverlay | jobber-keyboard-shortcuts-manual-install.js:881-889 | the primary modifier with Slash and without Alt toggles the overlay before any other branch |
| Dispatch.EscapeBlockedInEditForm | jobber-keyboard-shortcuts-manual-install.js:850-871 | with an edit form open and the overlay hidden, Escape is swallowed on keydown, keyup and keypress |
| Dispatch.EscapeBlockedOnlyInEditForm | jobber-keyboard-shortcuts-manual-install.js:850-879 | with no edit form and the overlay hidden, Escape is left to the page on all three events |
| Dispatch.ChatEnterSwallowed | jobber-keyboard-shortcuts-manual-install.js:905-925 | plain Enter or Alt+Enter in a TEXTAREA is swallowed on keydown and keypress if and only if the chat send button exists |
| Dispatch.TypingGuard | jobber-keyboard-shortcuts-manual-install.js:963-1037 | Shift+N, Shift+I and Shift+V are left to the page while the user types |
| Dispatch.ShiftNPrecedence | jobber-keyboard-shortcuts-manual-install.js:963-995 | Shift+N switches tabs if and only if a visit/request dialog is open, scrolls if and only if there is no such dialog and the page is a job page, and otherwise is left to the page |
| Dispatch.ShiftIOnlyInDialog | jobber-keyboard-shortcuts-manual-install.js:998-1021 | Shift+I acts if and only if a visit/request dialog is open |
| Dispatch.ShiftVOnlyOnJobPage | jobber-keyboard-shortcuts-manual-install.js:1024-1046 | Shift+V acts if and only if the path is a job path |
| Dispatch.SaveComboPriority | jobber-keyboard-shortcuts-manual-install.js:1049-1080 | Cmd/Ctrl+Enter clicks Delete if and only if the delete-note dialog has its button; otherwise it sends chat if and only if focus is in a TEXTAREA and the send button exists; otherwise it saves. It stops propagation only when sending chat |
| Dispatch.ChordPassesEarlyChecks | jobber-keyboard-shortcuts-manual-install.js:850-960 | a key that reaches one of the five chord branches passes the Escape, overlay and chat-Enter checks, and the branch decides |
| Dispatch.EarlyOrCascade | jobber-keyboard-shortcuts-manual-install.js:850-1081 | every keydown decision is an Escape, overlay or chat-Enter suppression, or the decision of the cascade |
| Dispatch.ChordCommandsFromBranches | jobber-keyboard-shortcuts-manual-install.js:927-960 | each of the five chord commands is chosen if and only if the cascade takes its branch |
| Dispatch.ChordCommandsIgnoreContext | jobber-keyboard-shortcuts-manual-install.js:927-960 | the Edit, Text Reminder, Assign Crew, inbox and feed commands are chosen if and only if their exact chord is pressed, whatever the page state |
| Dispatch.ExtraModifierSelectsNothing | jobber-keyboard-shortcuts-manual-install.js:927-933 | Cmd+Ctrl+Shift+E on a Mac is left to the page |
| Dispatch.CascadeCommand | jobber-keyboard-shortcuts-manual-install.js:874-1081 | a command other than the early ones comes from the cascade branch that matched |
| Dispatch.BranchGuards | jobber-keyboard-shortcuts-manual-install.js:963-1046 | the Shift branches choose a tab switch only in an open visit/request dialog and a scroll only on a job page, never while typing, and Shift+N scrolls only with no such dialog |
| SaveCascade.FirstQualifying | jobber-keyboard-shortcuts-manual-install.js:553-597 | a pass returns the first textarea that qualifies, and None only when none qualifies |
| SaveCascade.FirstIsUnique | jobber-keyboard-shortcuts-manual-install.js:553-597 | a qualifying index whose predecessors all fail is the one a pass returns |
| SaveCascade.ScanNotes | jobber-keyboard-shortcuts-manual-install.js:554-596 | the source's for/break loop returns what the pass specifies |
| SaveCascade.FindSaveTarget | jobber-keyboard-shortcuts-manual-install.js:498-598 | the step-by-step search settles on the target the save cascade specifies |
| SaveCascade.ChosenNoteIsEligible | jobber-keyboard-shortcuts-manual-install.js:498-598 | a chosen textarea has a displayed container with a save button, nothing above it in the cascade applied, and it is the focused one unless no eligible textarea has focus |
| SaveCascade.NothingToSave | jobber-keyboard-shortcuts-manual-install.js:498-622 | the cascade finds nothing if and only if there is no SMS send button, no to-do save button, no usable modal note and no eligible textarea |
| SaveCascade.FocusedBeatsNonBlank | jobber-keyboard-shortcuts-manual-install.js:549-581 | an eligible focused textarea is saved in preference to any textarea with text |
| ActionList.FirstMatch | jobber-keyboard-shortcuts-manual-install.js:338-348 | the loop's result is the first entry that matches, and None only when none does |
| ActionList.OpenAction | jobber-keyboard-shortcuts-manual-install.js:301-456 | the source's steps ask for the effect the operation specifies |
| ActionList.ScanActions | jobber-keyboard-shortcuts-manual-install.js:338-348 | the for/break loop over the action list returns the first match |
| ActionList.FetchOnlyFromFirstMatch | jobber-keyboard-shortcuts-manual-install.js:301-464 | a request is made only from a visit/request dialog with a More Actions button, a non-empty attribute that decodes, and an href that is non-empty and comes from the first matching entry |
| ActionList.FirstMatchIsFetched | jobber-keyboard-shortcuts-manual-install.js:301-464 | conversely, when those conditions hold, the first matching entry's href is requested |
| ActionList.FirstMatchWithoutHrefHidesLater | jobber-keyboard-shortcuts-manual-install.js:338-352 | a first match without an href reports "not found" even if a later entry would do |
| ActionList.FirstMatchUnique | jobber-keyboard-shortcuts-manual-install.js:338-348 | a matching entry with no match before it is the one the loop stops at |
| ActionList.EscapedListReachesDecoder | jobber-keyboard-shortcuts-manual-install.js:320-334 | an attribute holding an escaped list reaches the JSON decoder unchanged |
| ActionList.FailuresAreNotices | jobber-keyboard-shortcuts-manual-install.js:306-352 | every outcome is a request or one of the five alert messages of its kind, and each guard's failure gives its own message in source order: no visit/request dialog, no More Actions button, an empty or missing action list, JSON that does not parse, and then no matching entry or a first match without an `href` |
| ActionList.SmsIdSelects | jobber-keyboard-shortcuts-manual-install.js:440 | an anchor with id `sms` is the Text Reminder action whatever its text |
| ActionList.EditLinkScenario | jobber-keyboard-shortcuts-manual-install.js:301-360 | in a visit dialog, a sole action linking to `.../edit.dialog` is requested |
| Commands.CrewSelector | jobber-keyboard-shortcuts-manual-install.js:709-721 | the first of the four crew selectors that matches is used, and None only when none match |
| Commands.FirstTitled | jobber-keyboard-shortcuts-manual-install.js:824-831 | the first card title that normalises to the name, or None when there is none |
| Commands.FindCard | jobber-keyboard-shortcuts-manual-install.js:824-831 | the source's loop over the card titles returns that first title |
| Commands.FindVisitsCard | jobber-keyboard-shortcuts-manual-install.js:769-786 | trying the first title alone before the loop gives the same title as the loop alone |
| Commands.FindCrewButton | jobber-keyboard-shortcuts-manual-install.js:709-721 | the successive selector attempts pick the selector that `CrewSelector` specifies |
| Commands.RunAssignCrew | jobber-keyboard-shortcuts-manual-install.js:689-729 | the source's steps of Assign Crew ask for the effect `CrewOutcome` specifies |
| Commands.RunScrollToNotes | jobber-keyboard-shortcuts-manual-install.js:813-847 | the source's steps of the Internal notes scroll ask for the effect `ScrollOutcome` specifies |
| Commands.RunScrollToVisits | jobber-keyboard-shortcuts-manual-install.js:760-810 | the source's steps of the Visits scroll ask for the effect `ScrollOutcome` specifies |
| Commands.RunCommand | jobber-keyboard-shortcuts-manual-install.js:301-847 | running a command step by step asks for exactly the effect `Execute` specifies |
| Commands.FirstTitledUnique | jobber-keyboard-shortcuts-manual-install.js:824-831 | a matching title whose predecessors all fail is the one the search returns |
| Commands.CrewClicksFirstHit | jobber-keyboard-shortcuts-manual-install.js:689-729 | Assign Crew clicks selector k if and only if it is in context and k is the first selector that matches, and it does nothing if and only if it is out of context |
| Commands.ScrollTargetsFirstTitledCard | jobber-keyboard-shortcuts-manual-install.js:760-847 | a scroll targets card i if and only if the page is a job page and i is the first title with the name and lies inside a card |
| Commands.SaveNoticeIffNothing | jobber-keyboard-shortcuts-manual-install.js:598-622 | Save alerts "Save button not found" if and only if the cascade finds nothing |
| Commands.DispatchedGuardsHold | jobber-keyboard-shortcuts-manual-install.js:963-1021 | a tab switch chosen by the dispatcher never fails the operation's own dialog check |
| Commands.DispatchedScrollsOnJobPage | jobber-keyboard-shortcuts-manual-install.js:985-1046 | a scroll chosen by the dispatcher is on a job page, so the operation's own route check passes |
| Commands.EffectsBelongToTheirCommands | jobber-keyboard-shortcuts-manual-install.js:301-847 | requests come only from Edit/Text Reminder, note saves only from Save, and scrolls only from the scroll commands on a job page. The overlay and blocking commands touch nothing on the page |
| Overlay.HelpOverlay.constructor | jobber-keyboard-shortcuts-manual-install.js:78-80 | at load there is no overlay and no saved overflow |
| Overlay.HelpOverlay.Create | jobber-keyboard-shortcuts-manual-install.js:82-261 | the overlay is built once, hidden, and later calls change nothing |
| Overlay.HelpOverlay.Hide | jobber-keyboard-shortcuts-manual-install.js:264-273 | before the overlay exists nothing changes; afterwards it is hidden and a saved body overflow is restored and forgotten |
| Overlay.HelpOverlay.Show | jobber-keyboard-shortcuts-manual-install.js:275-284 | the body's overflow is saved, the body is locked with `hidden`, and the overlay is shown |
| Overlay.HelpOverlay.Toggle | jobber-keyboard-shortcuts-manual-install.js:286-296 | visibility flips. Hiding restores the saved overflow; showing saves the current one |
| Overlay.ToggleTwiceRestoresBody | jobber-keyboard-shortcuts-manual-install.js:264-296 | showing and then hiding gives the body back its overflow |
| Overlay.HideWhenHiddenKeepsBody | jobber-keyboard-shortcuts-manual-install.js:264-273 | hiding an overlay that is not shown leaves the body alone |
| Listener.HandleKeydown | jobber-keyboard-shortcuts-manual-install.js:874-889 | the keydown decision uses the visibility at arrival and the Mac test of the platform string. Escape hides the overlay and restores the body. The toggle flips it: closing restores the saved body overflow and forgets it, opening saves the body overflow and locks the body. Every other command leaves the overlay untouched, and the page effect is the command's |
| Listener.EscapeClosesOverlay | jobber-keyboard-shortcuts-manual-install.js:875-879 | Escape with the overlay shown closes it |

## Left out

- The network request, its CSRF header, running the returned script with `new Function`, and the fallback navigation: the model stops at the `Fetch(href)` effect. Those steps happen after the promise resolves and involve the host page's scripts.
- JSON and HTML parsing are parameters. `parse` yields None where `JSON.parse` throws, and `view` gives a fragment's first anchor and its text. The model takes every decoded value to be an array of strings; other values are not modelled, and the source treats them as follows:
  - a value that cannot be iterated (an object, a number, a boolean, `null`) throws at the `for ... of` loop and reaches the outer `try`/`catch`, which alerts "Bookmarklet error";
  - an array whose entries are not strings is scanned like any other, since assigning an entry to `innerHTML` turns it into a string;
  - a JSON string is scanned one character at a time and matches nothing; the Edit operation then alerts its not-found message, while the Text Reminder operation throws at `actionsArray.forEach` and reaches the outer `try`/`catch`.
- The outer `try`/`catch` blocks of the operations are not modelled, because the DOM calls they guard are modelled as total.
- `setTimeout` delays are not modelled: the 100 ms focus of the Notes textarea and the 150 ms save click are folded into the `OpenNotes` and `SaveNote` effects.
- The note-save events (`input`, `change`, `keyup`, `blur`) and the focus call are part of the `SaveNote` effect.
- DOM construction and styling of the help overlay (its markup, its text and CSS, the hover colours of its close button) are left out. Only its build, show and hide state is modelled.
- The overlay's focus call and click handlers: clicking the backdrop or the close button calls `Hide`, and clicking inside the modal stops propagation. These are not modelled as events.
- `console` output is left out; `alert` is the `Notice` effect.
- CSS selector matching, `closest`, and `getComputedStyle` are snapshot fields, one per query.
- The dialog scope of lookups (`title.closest(...) || document`) is folded into those fields.
- `navigator.platform` is a string parameter of `Listener.HandleKeydown`, which passes the source's Mac test `Keys.IsMac` on it to the listeners as the boolean `mac`.
- Text.Lower: maps ASCII letters only, because `toLowerCase`'s full Unicode case mapping is not modelled. The literals the guards compare with are ASCII.
- Overlay.HelpOverlay.Show: requires the overlay to be hidden, because the source calls it only from `Toggle` in that state.
- The companion loader userscript, which fetches and evaluates this script, is not part of this model.
