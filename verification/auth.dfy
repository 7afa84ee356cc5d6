/** The mock session provider (src/hooks/use-auth.tsx): the current user,
    which starts as a fixed mock record, a `loading` flag, a partial-record
    update and sign-out. */
module Auth {
  import opened Optional

  /** The application's user record (src/types/index.ts); `string | null`
      fields are options. */
  datatype User = User(
    uid: string,
    displayName: Option<string>,
    email: Option<string>,
    photoURL: Option<string>,
    interestTags: seq<string>,
    bookmarkedEvents: seq<string>)

  /** `Partial<User>`: every field may be missing (`None`); a nullable field
      that is present carries its own option. */
  datatype UserPatch = UserPatch(
    uid: Option<string>,
    displayName: Option<Option<string>>,
    email: Option<Option<string>>,
    photoURL: Option<Option<string>>,
    interestTags: Option<seq<string>>,
    bookmarkedEvents: Option<seq<string>>)

  /** The patch with no field present. */
  const NoChange: UserPatch := UserPatch(None, None, None, None, None, None)

  /** The patch that carries every field of `u`, as a spread copy of the whole record does. */
  function Whole(u: User): UserPatch {
    UserPatch(Some(u.uid), Some(u.displayName), Some(u.email), Some(u.photoURL),
              Some(u.interestTags), Some(u.bookmarkedEvents))
  }

  /** Field by field, `r` takes what `p` supplies and keeps `u`'s value where `p` is silent. */
  predicate Overlays(r: User, u: User, p: UserPatch) {
    && r.uid == p.uid.GetOr(u.uid)
    && r.displayName == p.displayName.GetOr(u.displayName)
    && r.email == p.email.GetOr(u.email)
    && r.photoURL == p.photoURL.GetOr(u.photoURL)
    && r.interestTags == p.interestTags.GetOr(u.interestTags)
    && r.bookmarkedEvents == p.bookmarkedEvents.GetOr(u.bookmarkedEvents)
  }

  /** The user overlaid with the patch: each field present in the patch
      replaces the user's, every other field is kept. */
  function Merge(u: User, p: UserPatch): (r: User)
    ensures Overlays(r, u, p)
    ensures p.uid.Some? ==> r.uid == p.uid.value
    ensures p.uid.None? ==> r.uid == u.uid
    ensures p.displayName.Some? ==> r.displayName == p.displayName.value
    ensures p.displayName.None? ==> r.displayName == u.displayName
    ensures p.email.Some? ==> r.email == p.email.value
    ensures p.email.None? ==> r.email == u.email
    ensures p.photoURL.Some? ==> r.photoURL == p.photoURL.value
    ensures p.photoURL.None? ==> r.photoURL == u.photoURL
    ensures p.interestTags.Some? ==> r.interestTags == p.interestTags.value
    ensures p.interestTags.None? ==> r.interestTags == u.interestTags
    ensures p.bookmarkedEvents.Some? ==> r.bookmarkedEvents == p.bookmarkedEvents.value
    ensures p.bookmarkedEvents.None? ==> r.bookmarkedEvents == u.bookmarkedEvents
  {
    User(
      if p.uid.Some? then p.uid.value else u.uid,
      if p.displayName.Some? then p.displayName.value else u.displayName,
      if p.email.Some? then p.email.value else u.email,
      if p.photoURL.Some? then p.photoURL.value else u.photoURL,
      if p.interestTags.Some? then p.interestTags.value else u.interestTags,
      if p.bookmarkedEvents.Some? then p.bookmarkedEvents.value else u.bookmarkedEvents)
  }

  /** The overlay rule pins the merged record down completely. */
  lemma OverlaysUnique(r1: User, r2: User, u: User, p: UserPatch)
    requires Overlays(r1, u, p) && Overlays(r2, u, p)
    ensures r1 == r2
  {
  }

  /** Two partial records spread one over the other: `q` wins where it has a field. */
  function Combine(p: UserPatch, q: UserPatch): UserPatch {
    UserPatch(
      if q.uid.Some? then q.uid else p.uid,
      if q.displayName.Some? then q.displayName else p.displayName,
      if q.email.Some? then q.email else p.email,
      if q.photoURL.Some? then q.photoURL else p.photoURL,
      if q.interestTags.Some? then q.interestTags else p.interestTags,
      if q.bookmarkedEvents.Some? then q.bookmarkedEvents else p.bookmarkedEvents)
  }

  /** Two updates in a row are one update with the combined patch. */
  lemma MergeComposes(u: User, p: UserPatch, q: UserPatch)
    ensures Merge(Merge(u, p), q) == Merge(u, Combine(p, q))
  {
  }

  /** The empty patch changes nothing, a whole record replaces everything, and
      applying a patch twice is applying it once. */
  lemma MergeLaws(u: User, v: User, p: UserPatch)
    ensures Merge(u, NoChange) == u
    ensures Merge(u, Whole(v)) == v
    ensures Merge(Merge(u, p), p) == Merge(u, p)
  {
  }

  /** The provider's state: the current user (`null` once signed out) and `loading`. */
  datatype Session = Session(user: Option<User>, loading: bool)

  const MockUser: User := User(
    "user-1",
    Some("Alex Doe"),
    Some("alex.doe@example.com"),
    Some("https://images.unsplash.com/photo-1535713875002-d1d0cf377fde?q=80&w=100&h=100&auto=format&fit=crop"),
    ["Machine Learning", "Web Development", "Python"],
    ["event-1", "event-3"])

  /** The provider mounts signed in as the mock user and not loading. */
  function InitialSession(): (s: Session)
    ensures s.user == Some(MockUser) && !s.loading
  {
    Session(Some(MockUser), false)
  }

  /** `updateUser`: with a user present, overlay the patch on it; with none, do nothing. */
  function UpdateUser(s: Session, p: UserPatch): (r: Session)
    ensures r.loading == s.loading
    ensures s.user.None? ==> r == s
    ensures s.user.Some? ==> r.user.Some? && Overlays(r.user.value, s.user.value, p)
  {
    match s.user
    case None => s
    case Some(u) => s.(user := Some(Merge(u, p)))
  }

  /** `signOut`: the user becomes `null`; navigation to the login page is not modelled. */
  function SignOut(s: Session): (r: Session)
    ensures r.user.None? && r.loading == s.loading
  {
    s.(user := None)
  }

  /** The calls the provider exposes to the rest of the application. */
  datatype Action = Update(patch: UserPatch) | SignOutCalled

  function Apply(s: Session, actions: seq<Action>): Session
    decreases |actions|
  {
    if actions == [] then s
    else
      var next := match actions[0]
        case Update(p) => UpdateUser(s, p)
        case SignOutCalled => SignOut(s);
      Apply(next, actions[1..])
  }

  /** Nothing the provider exposes sets `loading`: it is false from the start and stays so. */
  lemma {:induction false} LoadingStaysFalse(s: Session, actions: seq<Action>)
    requires !s.loading
    ensures !Apply(s, actions).loading
    decreases |actions|
  {
    if actions != [] {
      var next := match actions[0]
        case Update(p) => UpdateUser(s, p)
        case SignOutCalled => SignOut(s);
      LoadingStaysFalse(next, actions[1..]);
    }
  }

  /** Once signed out, no later update brings a user back. */
  lemma {:induction false} SignedOutStaysSignedOut(s: Session, actions: seq<Action>)
    requires s.user.None?
    ensures Apply(s, actions) == s
    decreases |actions|
  {
    if actions != [] {
      SignedOutStaysSignedOut(s, actions[1..]);
    }
  }
}
