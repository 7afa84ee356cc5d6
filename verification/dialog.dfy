/** The edit-interests dialog around the draft list: the parent's list, the
    open flag, the draft and the text field, and the events that change them
    (src/components/edit-interests-dialog.tsx). */
module InterestsDialog {
  import opened Interests

  /** `parent` is the `userInterests` prop, `draft` the `interests` state and
      `input` the `inputValue` state of the component. */
  datatype Dialog = Dialog(parent: seq<string>, open: bool, draft: seq<string>, input: string)

  /** What can happen to a mounted dialog: the open flag is toggled, text is
      typed, the Add button (or Enter) is pressed, a tag's remove button is
      pressed, or a save completes with the server action's `success` flag. */
  datatype Event =
    | SetOpen(value: bool)
    | TypeInput(text: string)
    | AddClicked
    | RemoveClicked(tag: string)
    | SaveFinished(success: bool)

  /** A freshly mounted dialog is closed, its draft copies the parent's list and the text field is empty. */
  function Mount(parent: seq<string>): (d: Dialog)
    ensures !d.open && d.draft == parent && d.parent == parent && d.input == []
  {
    Dialog(parent, false, parent, "")
  }

  /** One event. The dialog body, and so every control but the trigger, is
      rendered only while the dialog is open. A change of `open` re-runs the
      effect that copies the parent's list into the draft; the text field
      survives it. A successful save hands the draft to the parent and closes
      the dialog; a failed one changes nothing. */
  function Step(d: Dialog, ev: Event): (r: Dialog)
    ensures r.parent != d.parent ==> d.open && ev == SaveFinished(true) && r.parent == d.draft
    ensures ev == SaveFinished(false) ==> r == d
    ensures d.open && ev == SaveFinished(true) ==> !r.open && r.parent == d.draft && r.draft == d.draft
    ensures ev.SetOpen? && ev.value != d.open ==> r.open == ev.value && r.draft == d.parent
    ensures !d.open && !ev.SetOpen? ==> r == d
    ensures r.input != d.input ==> d.open && (ev.TypeInput? || (ev.AddClicked? && r.input == []))
    ensures ev.SetOpen? && ev.value == d.open ==> r == d
    ensures d.open && ev.TypeInput? ==> r == d.(input := ev.text)
    ensures d.open && ev == AddClicked ==>
      var a := AddInterest(d.draft, d.input);
      r == d.(draft := a.interests, input := a.input)
    ensures d.open && ev.RemoveClicked? ==> r == d.(draft := RemoveInterest(d.draft, ev.tag))
  {
    match ev
    case SetOpen(b) =>
      if b == d.open then d else d.(open := b, draft := d.parent)
    case TypeInput(text) =>
      if d.open then d.(input := text) else d
    case AddClicked =>
      if d.open then
        var a := AddInterest(d.draft, d.input);
        d.(draft := a.interests, input := a.input)
      else d
    case RemoveClicked(tag) =>
      if d.open then d.(draft := RemoveInterest(d.draft, tag)) else d
    case SaveFinished(ok) =>
      if d.open && ok then
        // the parent adopts the draft, then the effect copies it back into the draft
        var parent := d.draft;
        d.(parent := parent, open := false, draft := parent)
      else d
  }

  function Run(d: Dialog, evs: seq<Event>): Dialog
    decreases |evs|
  {
    if evs == [] then d else Run(Step(d, evs[0]), evs[1..])
  }

  /** What every reachable dialog satisfies: neither list holds two tags equal
      up to case, and a closed dialog's draft is the parent's list. */
  predicate Valid(d: Dialog) {
    && NoCaseDuplicates(d.parent)
    && NoCaseDuplicates(d.draft)
    && (!d.open ==> d.draft == d.parent)
  }

  lemma MountValid(parent: seq<string>)
    requires NoCaseDuplicates(parent)
    ensures Valid(Mount(parent))
  {
  }

  lemma StepKeepsValid(d: Dialog, ev: Event)
    requires Valid(d)
    ensures Valid(Step(d, ev))
  {
    match ev
    case AddClicked =>
      AddKeepsNoCaseDuplicates(d.draft, d.input);
    case RemoveClicked(tag) =>
      RemoveKeepsNoCaseDuplicates(d.draft, tag);
    case _ =>
  }

  lemma {:induction false} RunKeepsValid(d: Dialog, evs: seq<Event>)
    requires Valid(d)
    ensures Valid(Run(d, evs))
    decreases |evs|
  {
    if evs != [] {
      StepKeepsValid(d, evs[0]);
      RunKeepsValid(Step(d, evs[0]), evs[1..]);
    }
  }

  /** Without a successful save the parent's list is never touched. */
  lemma {:induction false} ParentChangesOnlyOnSave(d: Dialog, evs: seq<Event>)
    requires forall i :: 0 <= i < |evs| ==> evs[i] != SaveFinished(true)
    ensures Run(d, evs).parent == d.parent
    decreases |evs|
  {
    if evs != [] {
      assert evs[0] != SaveFinished(true);
      ParentChangesOnlyOnSave(Step(d, evs[0]), evs[1..]);
    }
  }

  /** Closing the dialog without saving throws the draft away: whatever was
      added or removed, reopening shows the parent's list again. */
  lemma {:induction false} CancelDiscardsEdits(d: Dialog, edits: seq<Event>)
    requires d.open
    requires forall i :: 0 <= i < |edits| ==> !edits[i].SetOpen? && !edits[i].SaveFinished?
    ensures var closed := Step(Run(d, edits), SetOpen(false));
      && !closed.open
      && closed.parent == d.parent
      && closed.draft == d.parent
      && Step(closed, SetOpen(true)).draft == d.parent
    decreases |edits|
  {
    if edits != [] {
      CancelDiscardsEdits(Step(d, edits[0]), edits[1..]);
    }
  }
}
