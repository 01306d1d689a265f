/** The application shell (src/App.tsx): which page is shown and who is signed
    in, driven by the sign-in, sign-out and navigation controls. */
module App {
  import opened Types

  /** `AppView`: the landing page, the gallery, or a detail page. */
  datatype View = Landing | GalleryPage | DetailPage

  datatype AppState = AppState(view: View, user: Option<User>)

  /** The user interactions the shell handles. */
  datatype Event =
    | Login       // "Enter Studio" on the navbar, or the landing page's call to action
    | Logout      // the navbar avatar, or the gallery sidebar's sign-out
    | LogoClick   // the navbar logo
    | GalleryNav  // the navbar "Gallery" button

  /** The account the simulated Google sign-in always produces. */
  const MockUser := User("Alex Rivers", "alex.rivers@gmail.com", "https://picsum.photos/seed/alex/200", true)

  /** The state on mount. */
  const Initial := AppState(Landing, None)

  /** The state right after signing in. */
  const SignedIn := AppState(GalleryPage, Some(MockUser))

  /** Whether the control for `e` is on screen in `s`. The navbar exists only
      on the landing page; it holds "Enter Studio" when nobody is signed in and
      the Gallery button and avatar otherwise. The landing page itself always
      offers sign-in, and the gallery offers sign-out. */
  predicate Enabled(s: AppState, e: Event)
    ensures Enabled(s, e) ==> s.view != DetailPage
    ensures e == GalleryNav && Enabled(s, e) ==> s.user.Some?
  {
    match e
    case Login => s.view == Landing
    case Logout => (s.view == Landing && s.user.Some?) || s.view == GalleryPage
    case LogoClick => s.view == Landing
    case GalleryNav => s.view == Landing && s.user.Some?
  }

  /** The state after the handler for `e` runs; a control that is on screen
      always leads to a safe state. */
  function Step(s: AppState, e: Event): (t: AppState)
    ensures Enabled(s, e) ==> Safe(t)
    ensures e == LogoClick || e == GalleryNav ==> t.user == s.user
  {
    match e
    case Login => AppState(GalleryPage, Some(MockUser))
    case Logout => AppState(Landing, None)
    case LogoClick => s.(view := Landing)
    case GalleryNav => s.(view := GalleryPage)
  }

  /** Signing in lands on the gallery as the mock user, whatever the state;
      signing in twice is signing in once. */
  lemma LoginIdempotent(s: AppState)
    ensures Step(s, Login) == SignedIn
    ensures Step(Step(s, Login), Login) == Step(s, Login)
  {
  }

  /** Signing out always returns to the anonymous landing page. */
  lemma LogoutResets(s: AppState)
    ensures Step(s, Logout) == Initial
    ensures Step(Step(s, Login), Logout) == Initial
  {
  }

  /** The logo and the Gallery button change only the page, never the user. */
  lemma NavigationKeepsUser(s: AppState)
    ensures Step(s, LogoClick).user == s.user && Step(s, LogoClick).view == Landing
    ensures Step(s, GalleryNav).user == s.user && Step(s, GalleryNav).view == GalleryPage
  {
  }

  /** The state reached from `s` by handling `events` in turn, or `None` when
      some event's control is not on screen at that point. */
  function Run(s: AppState, events: seq<Event>): (r: Option<AppState>)
    ensures r.Some? && Safe(s) ==> Safe(r.value)
    ensures r.Some? && s.user.None? && events != [] ==> r.value == Initial || r.value.user.Some?
    decreases |events|
  {
    if events == [] then Some(s)
    else if Enabled(s, events[0]) then Run(Step(s, events[0]), events[1..])
    else None
  }

  /** The safety property: the gallery is only shown to a signed-in user, and
      no handler ever shows the detail page. */
  predicate Safe(s: AppState)
  {
    (s.view == GalleryPage ==> s.user.Some?) && s.view != DetailPage
  }

  /** The two states the shell can actually be in. */
  predicate Reachable(s: AppState)
  {
    s == Initial || s == SignedIn
  }

  /** Every enabled event moves between the two reachable states. */
  lemma StepStaysReachable(s: AppState, e: Event)
    requires Reachable(s) && Enabled(s, e)
    ensures Reachable(Step(s, e))
  {
  }

  /** Every run from a reachable state ends in a reachable state. */
  lemma {:induction false} RunStaysReachable(s: AppState, events: seq<Event>)
    requires Reachable(s)
    requires Run(s, events).Some?
    ensures Reachable(Run(s, events).value)
    decreases |events|
  {
    if events != [] {
      StepStaysReachable(s, events[0]);
      RunStaysReachable(Step(s, events[0]), events[1..]);
    }
  }

  /** From mount, the shell is only ever on the anonymous landing page or on
      the gallery as the mock user, so every reachable state is safe. */
  lemma ReachableStatesAreSafe(events: seq<Event>)
    requires Run(Initial, events).Some?
    ensures Run(Initial, events).value == Initial || Run(Initial, events).value == SignedIn
    ensures Safe(Run(Initial, events).value)
  {
    RunStaysReachable(Initial, events);
  }

  /** The navbar's Gallery button and avatar need a signed-in user on the
      landing page, a state no run reaches: they are never on screen. */
  lemma SignedInNavbarUnreachable(events: seq<Event>)
    requires Run(Initial, events).Some?
    ensures !Enabled(Run(Initial, events).value, GalleryNav)
    ensures Run(Initial, events).value.view == Landing ==> Run(Initial, events).value.user.None?
  {
    RunStaysReachable(Initial, events);
  }

  /** Both reachable states are reached: sign in, then sign out. */
  lemma BothStatesReached()
    ensures Run(Initial, []) == Some(Initial)
    ensures Run(Initial, [Login]) == Some(SignedIn)
    ensures Run(Initial, [Login, Logout]) == Some(Initial)
  {
    assert [Login, Logout][1..] == [Logout];
  }

  /** The shell component and its two pieces of state. Its handlers run only
      when their control is on screen, so the shell stays safe: the gallery
      always has a user and the detail page never shows. (That only the two
      states of `Reachable` occur is proved of `Run` above.) */
  class Shell {
    var view: View
    var user: Option<User>

    ghost predicate Valid()
      reads this
    {
      Safe(State())
    }

    constructor ()
      ensures view == Landing && user == None
      ensures State() == Initial
      ensures Valid()
    {
      view := Landing;
      user := None;
    }

    function State(): AppState
      reads this
    {
      AppState(view, user)
    }

    /** `handleLogin`: sign in as the mock user and open the gallery. */
    method HandleLogin()
      requires Valid() && Enabled(State(), Login)
      modifies this
      ensures user == Some(MockUser) && view == GalleryPage
      ensures State() == Step(old(State()), Login)
      ensures Valid()
    {
      user := Some(MockUser);
      view := GalleryPage;
    }

    /** `handleLogout`: forget the user and return to the landing page. */
    method HandleLogout()
      requires Valid() && Enabled(State(), Logout)
      modifies this
      ensures user == None && view == Landing
      ensures State() == Step(old(State()), Logout)
      ensures Valid()
    {
      user := None;
      view := Landing;
    }

    /** The navbar logo. */
    method ClickLogo()
      requires Valid() && Enabled(State(), LogoClick)
      modifies this
      ensures view == Landing && user == old(user)
      ensures State() == Step(old(State()), LogoClick)
      ensures Valid()
    {
      view := Landing;
    }

    /** The navbar Gallery button. */
    method ClickGalleryNav()
      requires Valid() && Enabled(State(), GalleryNav)
      modifies this
      ensures view == GalleryPage && user == old(user)
      ensures State() == Step(old(State()), GalleryNav)
      ensures Valid()
    {
      view := GalleryPage;
    }
  }
}
