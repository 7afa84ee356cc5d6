/** The profile page's glue between the session and the interest dialog
    (src/app/(app)/profile/page.tsx): the dialog's parent list is the signed-in
    user's tags, and a successful save writes the draft back through `updateUser`. */
module Profile {
  import opened Optional
  import opened Auth
  import opened Interests
  import opened InterestsDialog

  /** `onInterestsUpdate`: with a user present, update it with the whole
      record and the new tags; with none, do nothing. Only the tags change. */
  function OnInterestsUpdate(s: Session, tags: seq<string>): (r: Session)
    ensures r.loading == s.loading
    ensures s.user.None? ==> r == s
    ensures s.user.Some? ==> r.user == Some(s.user.value.(interestTags := tags))
  {
    if s.user.Some? then
      UpdateUser(s, Whole(s.user.value).(interestTags := Some(tags)))
    else s
  }

  /** The page while signed in: the session and the dialog it renders. */
  datatype Page = Page(session: Session, dialog: Dialog)

  /** The dialog shows the signed-in user's tags as its parent list. */
  predicate Linked(p: Page) {
    p.session.user.Some? && p.dialog.parent == p.session.user.value.interestTags
  }

  /** The page as first shown: the mock user, and a dialog mounted on their tags. */
  function Initial(): Page {
    Page(InitialSession(), Mount(MockUser.interestTags))
  }

  /** A dialog event; a successful save also reports the draft to the page. */
  function PageStep(p: Page, ev: Event): (r: Page)
    ensures Linked(p) ==> Linked(r)
    ensures r.session.user.Some? <==> p.session.user.Some?
    ensures r.dialog == Step(p.dialog, ev)
    ensures !(p.dialog.open && ev == SaveFinished(true)) ==> r.session == p.session
  {
    var d := Step(p.dialog, ev);
    if p.dialog.open && ev == SaveFinished(true) then
      Page(OnInterestsUpdate(p.session, p.dialog.draft), d)
    else
      Page(p.session, d)
  }

  function RunPage(p: Page, evs: seq<Event>): Page
    decreases |evs|
  {
    if evs == [] then p else RunPage(PageStep(p, evs[0]), evs[1..])
  }

  /** The mock user's three tags are distinct up to case. */
  lemma MockTagsDistinct()
    ensures NoCaseDuplicates(MockUser.interestTags)
  {
  }

  /** From the first render on, the user's saved tags and the dialog's draft
      never hold two tags equal up to case, the dialog always shows the user's
      tags, and a closed dialog's draft is exactly those tags. */
  lemma {:induction false} PageKeepsValid(evs: seq<Event>)
    ensures var p := RunPage(Initial(), evs);
      Linked(p) && Valid(p.dialog) && NoCaseDuplicates(p.session.user.value.interestTags)
  {
    MockTagsDistinct();
    MountValid(MockUser.interestTags);
    RunPageKeepsValid(Initial(), evs);
  }

  lemma {:induction false} RunPageKeepsValid(p: Page, evs: seq<Event>)
    requires Linked(p) && Valid(p.dialog)
    ensures var q := RunPage(p, evs); Linked(q) && Valid(q.dialog)
    decreases |evs|
  {
    if evs != [] {
      StepKeepsValid(p.dialog, evs[0]);
      RunPageKeepsValid(PageStep(p, evs[0]), evs[1..]);
    }
  }

  /** A successful save makes the draft the user's tags and leaves every other field of the user as it was. */
  lemma SaveReachesSession(p: Page)
    requires Linked(p) && p.dialog.open
    ensures var q := PageStep(p, SaveFinished(true));
      && q.session.user == Some(p.session.user.value.(interestTags := p.dialog.draft))
      && !q.dialog.open
  {
  }
}
