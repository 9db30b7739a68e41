/** The decision logic of the navigation header
    (web/components/Header/Header.tsx): which of its three shapes it shows,
    the names it derives from the user, and its logging-out flag. */
module Header {
  import opened Wrappers
  import Js
  import Errors
  import AuthProvider

  /** The three mutually exclusive things the header can show. */
  datatype Branch = Skeleton | LoginButton | UserMenu

  /** The nested conditional that picks the branch. */
  function SelectBranch(isMounted: bool, isLoggingOut: bool, isLoggedIn: bool): (b: Branch)
    ensures b == Skeleton <==> !isMounted || isLoggingOut
    ensures b == LoginButton <==> isMounted && !isLoggingOut && !isLoggedIn
    ensures b == UserMenu <==> isMounted && !isLoggingOut && isLoggedIn
  {
    if !isMounted || isLoggingOut then Skeleton
    else if !isLoggedIn then LoginButton
    else UserMenu
  }

  /** The branch the header shows for a session and its own flag. */
  function View(s: AuthProvider.State, isLoggingOut: bool): Branch {
    SelectBranch(s.isMounted, isLoggingOut, s.isLoggedIn)
  }

  /** `user?.displayName`: absent when there is no user. */
  function DisplayNameOf(user: Option<AuthProvider.User>): Option<string> {
    if user.Some? then user.value.displayName else None
  }

  /** `user?.email`: absent when there is no user. */
  function EmailOf(user: Option<AuthProvider.User>): Option<string> {
    if user.Some? then user.value.email else None
  }

  /** `user?.photoURL`: absent when there is no user. */
  function PhotoOf(user: Option<AuthProvider.User>): Option<string> {
    if user.Some? then user.value.photoURL else None
  }

  /** The avatar's name: the display name, else the email, else "";
      an empty display name counts as missing. */
  function AvatarName(user: Option<AuthProvider.User>): (name: string)
    ensures Js.Truthy(DisplayNameOf(user)) ==> name == DisplayNameOf(user).value
    ensures !Js.Truthy(DisplayNameOf(user)) && Js.Truthy(EmailOf(user)) ==> name == EmailOf(user).value
    ensures name == "" <==> !Js.Truthy(DisplayNameOf(user)) && !Js.Truthy(EmailOf(user))
  {
    Js.OrString(Js.Or(DisplayNameOf(user), EmailOf(user)), "")
  }

  /** The avatar's image: the photo URL, else "". */
  function AvatarSrc(user: Option<AuthProvider.User>): (src: string)
    ensures Js.Truthy(PhotoOf(user)) ==> src == PhotoOf(user).value
    ensures src == "" <==> !Js.Truthy(PhotoOf(user))
  {
    Js.OrString(PhotoOf(user), "")
  }

  /** The name line of the menu: the display name, else "Anonymous";
      it is never empty. */
  function MenuLabel(user: Option<AuthProvider.User>): (text: string)
    ensures text != ""
    ensures Js.Truthy(DisplayNameOf(user)) ==> text == DisplayNameOf(user).value
    ensures !Js.Truthy(DisplayNameOf(user)) ==> text == "Anonymous"
  {
    Js.OrString(DisplayNameOf(user), "Anonymous")
  }

  /** The header's view of the client: the provider's session and its own
      `isLoggingOut` flag. */
  datatype HeaderState = HeaderState(session: AuthProvider.State, isLoggingOut: bool)

  /** The header as it mounts: the provider's initial session, flag down. */
  const InitialHeader: HeaderState := HeaderState(AuthProvider.InitialState, false)

  /** The branch the header shows in a given state. */
  function Shown(h: HeaderState): Branch {
    View(h.session, h.isLoggingOut)
  }

  /** The first half of logoutHandler, up to the await: raise the flag and
      send the sign-out. */
  function StartLogout(h: HeaderState): (r: HeaderState)
    ensures r.isLoggingOut && r.session == h.session
    ensures Shown(r) == Skeleton
  {
    h.(isLoggingOut := true)
  }

  /** The state after the handler settles and whatever escapes from it. */
  datatype Settled = Settled(header: HeaderState, escaped: Option<Errors.ErrorValue>)

  /** The second half of logoutHandler, once the sign-out's promise settles:
      a resolution completes the try block, a rejection lands in the empty
      catch block, and the finally block lowers the flag on both paths. */
  function SettleLogout(h: HeaderState, outcome: AuthProvider.Outcome): (r: Settled)
    ensures !r.header.isLoggingOut
    ensures r.escaped.None?
    ensures r.header.session == h.session
  {
    var done := AuthProvider.Perform(h.session, AuthProvider.Logout, _ => outcome);
    var afterTry :=
      match done.outcome
      case Resolved => Settled(h.(session := done.state), None)
      // the caught error is dropped
      case Rejected(_) => Settled(h.(session := done.state), None);
    afterTry.(header := afterTry.header.(isLoggingOut := false))
  }

  /** What can happen while the header is mounted, interleaved freely: any
      event of the provider, a click on "Log out", and the settling of a
      sign-out the handler awaits. */
  datatype HeaderEvent =
    | Provider(event: AuthProvider.Event)
    | LogoutClicked
    | LogoutSettled(outcome: AuthProvider.Outcome)

  function HeaderStep(h: HeaderState, e: HeaderEvent): HeaderState {
    match e
    case Provider(pe) => h.(session := AuthProvider.Step(h.session, pe))
    case LogoutClicked => StartLogout(h)
    case LogoutSettled(o) => SettleLogout(h, o).header
  }

  /** The fold of the header's steps, first event first. */
  function HeaderRun(h: HeaderState, events: seq<HeaderEvent>): HeaderState
    decreases |events|
  {
    if |events| == 0 then h
    else HeaderStep(HeaderRun(h, events[..|events| - 1]), events[|events| - 1])
  }

  /** The provider's events of a header run, in order. */
  function ProviderEvents(events: seq<HeaderEvent>): (r: seq<AuthProvider.Event>)
    ensures |r| <= |events|
    decreases |events|
  {
    if |events| == 0 then []
    else
      var last := events[|events| - 1];
      ProviderEvents(events[..|events| - 1]) + (if last.Provider? then [last.event] else [])
  }

  /** Whether the last logout event of a run was a click (`Some(true)`), a
      settling (`Some(false)`), or there was none (`None`). */
  function LastLogoutEvent(events: seq<HeaderEvent>): Option<bool>
    decreases |events|
  {
    if |events| == 0 then None
    else
      var last := events[|events| - 1];
      if last.LogoutClicked? then Some(true)
      else if last.LogoutSettled? then Some(false)
      else LastLogoutEvent(events[..|events| - 1])
  }

  /** The header's own steps never write the session: a header run leaves it
      exactly where the provider's events alone take it. */
  lemma {:induction false} HeaderRunSession(h: HeaderState, events: seq<HeaderEvent>)
    ensures HeaderRun(h, events).session == AuthProvider.Run(h.session, ProviderEvents(events))
    decreases |events|
  {
    if |events| > 0 {
      var prefix := events[..|events| - 1];
      var last := events[|events| - 1];
      HeaderRunSession(h, prefix);
      if last.Provider? {
        var ps := ProviderEvents(prefix) + [last.event];
        assert ps[..|ps| - 1] == ProviderEvents(prefix);
        assert AuthProvider.Run(h.session, ps)
            == AuthProvider.Step(AuthProvider.Run(h.session, ProviderEvents(prefix)), last.event);
      } else {
        assert ProviderEvents(events) == ProviderEvents(prefix) + [] == ProviderEvents(prefix);
        assert HeaderRun(h, events).session == HeaderRun(h, prefix).session;
      }
    }
  }

  /** The flag is up exactly while a click has not been followed by a
      settling: after the last settling it is down, whatever the outcome,
      and provider events never move it. */
  lemma {:induction false} HeaderRunFlag(h: HeaderState, events: seq<HeaderEvent>)
    ensures LastLogoutEvent(events).None? ==> HeaderRun(h, events).isLoggingOut == h.isLoggingOut
    ensures LastLogoutEvent(events).Some? ==>
              HeaderRun(h, events).isLoggingOut == LastLogoutEvent(events).value
    decreases |events|
  {
    if |events| > 0 {
      HeaderRunFlag(h, events[..|events| - 1]);
    }
  }

  /** Between a click and its settling the header shows only the skeleton,
      whatever the provider does meanwhile. */
  lemma SkeletonWhileLoggingOut(h: HeaderState, events: seq<HeaderEvent>)
    requires LastLogoutEvent(events) == Some(true)
    ensures Shown(HeaderRun(h, events)) == Skeleton
  {
    HeaderRunFlag(h, events);
  }
}
