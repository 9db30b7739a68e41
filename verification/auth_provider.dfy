/** The client session state machine of the auth provider
    (web/providers/AuthProvider/AuthProvider.tsx), pulled out of React as a
    pure reducer over an immutable state. */
module AuthProvider {
  import opened Wrappers
  import Errors

  /** The profile projection kept in the session (IUser). */
  datatype User = User(
    displayName: Option<string>,
    email: Option<string>,
    emailVerified: Option<bool>,
    photoURL: Option<string>)

  /** The principal the identity service hands to `onAuthStateChanged`. It
      carries more than the session keeps (here, its `uid`). */
  datatype Principal = Principal(
    uid: string,
    displayName: Option<string>,
    email: Option<string>,
    emailVerified: bool,
    photoURL: Option<string>)

  /** The session (IState). */
  datatype State = State(
    isVisibleAuthModal: bool,
    isLoggedIn: bool,
    user: Option<User>,
    isMounted: bool)

  /** The state before the identity service has said anything. */
  const InitialState: State := State(false, false, None, false)

  /** `isLoggedIn` is exactly "a user is present". */
  predicate Consistent(s: State) {
    s.isLoggedIn <==> s.user.Some?
  }

  /** `a` and `b` agree on everything except the modal flag. */
  predicate SameSession(a: State, b: State) {
    a.isLoggedIn == b.isLoggedIn && a.user == b.user && a.isMounted == b.isMounted
  }

  lemma InitialStateShape()
    ensures !InitialState.isMounted && !InitialState.isLoggedIn
    ensures InitialState.user.None? && !InitialState.isVisibleAuthModal
    ensures Consistent(InitialState)
  {
  }

  /** openAuthModal: shows the modal and touches nothing else. */
  function OpenAuthModal(s: State): (r: State)
    ensures r.isVisibleAuthModal && SameSession(s, r)
  {
    s.(isVisibleAuthModal := true)
  }

  /** closeAuthModal: hides the modal and touches nothing else. */
  function CloseAuthModal(s: State): (r: State)
    ensures !r.isVisibleAuthModal && SameSession(s, r)
  {
    s.(isVisibleAuthModal := false)
  }

  /** Opening and closing are each idempotent, and the last one wins. */
  lemma ModalTogglesIdempotent(s: State)
    ensures OpenAuthModal(OpenAuthModal(s)) == OpenAuthModal(s)
    ensures CloseAuthModal(CloseAuthModal(s)) == CloseAuthModal(s)
    ensures CloseAuthModal(OpenAuthModal(s)) == CloseAuthModal(s)
    ensures OpenAuthModal(CloseAuthModal(s)) == OpenAuthModal(s)
  {
  }

  /** The projection of a principal onto the session's profile. */
  function ToUser(p: Principal): User {
    User(p.displayName, p.email, Some(p.emailVerified), p.photoURL)
  }

  /** The `onAuthStateChanged` callback. The prior state is not consulted:
      a notification replaces the session wholesale. */
  function OnAuthStateChanged(s: State, userState: Option<Principal>): (r: State)
    ensures r.isMounted && !r.isVisibleAuthModal && Consistent(r)
    ensures userState.None? ==> r == InitialState.(isMounted := true)
    ensures userState.Some? ==>
              r.isLoggedIn
              && r.user.Some?
              && r.user.value.displayName == userState.value.displayName
              && r.user.value.email == userState.value.email
              && r.user.value.emailVerified == Some(userState.value.emailVerified)
              && r.user.value.photoURL == userState.value.photoURL
  {
    match userState
    case None => InitialState.(isMounted := true)
    case Some(p) => State(false, true, Some(ToUser(p)), true)
  }

  /** No merge with what was there before: the result depends on the
      notification alone, and repeating a notification changes nothing. */
  lemma NotificationReplacesWholesale(s1: State, s2: State, userState: Option<Principal>)
    ensures OnAuthStateChanged(s1, userState) == OnAuthStateChanged(s2, userState)
    ensures OnAuthStateChanged(OnAuthStateChanged(s1, userState), userState)
              == OnAuthStateChanged(s1, userState)
  {
  }

  /** The form payload of register and login (FormInput). */
  datatype Credentials = Credentials(email: string, password: string)

  /** The requests sent to the identity service. */
  datatype Request =
    | CreateUser(email: string, password: string)
    | SignIn(email: string, password: string)
    | SignOut

  /** How the identity service answers: the promise resolves or rejects. */
  datatype Outcome = Resolved | Rejected(error: Errors.ErrorValue)

  /** The identity service as an oracle: any answer to any request. */
  type IdentityService = Request -> Outcome

  /** The three actions the provider exposes. */
  datatype Action = Register(payload: Credentials) | Login(payload: Credentials) | Logout

  /** The request each action sends. */
  function RequestOf(a: Action): Request {
    match a
    case Register(c) => CreateUser(c.email, c.password)
    case Login(c) => SignIn(c.email, c.password)
    case Logout => SignOut
  }

  /** The state after the action, the request it sent and the answer its
      promise settles with. */
  datatype ActionResult = ActionResult(state: State, sent: Request, outcome: Outcome)

  /** registerWithEmailAndPassword, loginWithEmailAndPassword and logout:
      each forwards one request and returns the service's promise; none of
      them writes the session, whether the request succeeds or fails. */
  function Perform(s: State, a: Action, service: IdentityService): (r: ActionResult)
    ensures r.state == s
    ensures r.outcome == service(r.sent)
    ensures a.Register? ==> r.sent == CreateUser(a.payload.email, a.payload.password)
    ensures a.Login? ==> r.sent == SignIn(a.payload.email, a.payload.password)
    ensures a.Logout? ==> r.sent == SignOut
  {
    var req := RequestOf(a);
    ActionResult(s, req, service(req))
  }

  /** Everything that can happen to the session, applied one at a time. */
  datatype Event =
    | OpenModal
    | CloseModal
    | AuthChanged(userState: Option<Principal>)
    | Act(action: Action, outcome: Outcome)

  /** The reducer. */
  function Step(s: State, e: Event): (r: State)
    ensures Consistent(s) ==> Consistent(r)
    ensures s.isMounted ==> r.isMounted
    ensures e.AuthChanged? ==> r.isMounted && !r.isVisibleAuthModal
    ensures !e.AuthChanged? ==> SameSession(s, r)
    // the actions write nothing at all, and only opening shows the modal
    ensures e.Act? ==> r == s
    ensures !e.OpenModal? && !s.isVisibleAuthModal ==> !r.isVisibleAuthModal
  {
    match e
    case OpenModal => OpenAuthModal(s)
    case CloseModal => CloseAuthModal(s)
    case AuthChanged(u) => OnAuthStateChanged(s, u)
    case Act(a, o) => Perform(s, a, _ => o).state
  }

  /** The fold of the reducer over a sequence of events, first event first. */
  function Run(s: State, events: seq<Event>): State
    decreases |events|
  {
    if |events| == 0 then s
    else Step(Run(s, events[..|events| - 1]), events[|events| - 1])
  }

  /** The payload of the last notification in `events`, if there is one. */
  function LastNotification(events: seq<Event>): (r: Option<Option<Principal>>)
    ensures r.None? <==> forall i :: 0 <= i < |events| ==> !events[i].AuthChanged?
    decreases |events|
  {
    if |events| == 0 then None
    else
      var last := events[|events| - 1];
      if last.AuthChanged? then Some(last.userState)
      else
        var prefix := events[..|events| - 1];
        assert forall i :: 0 <= i < |prefix| ==> prefix[i] == events[i];
        LastNotification(prefix)
  }

  /** `isLoggedIn` agrees with the presence of a user after any run that
      starts from a state where it does. */
  lemma {:induction false} RunPreservesConsistent(s: State, events: seq<Event>)
    requires Consistent(s)
    ensures Consistent(Run(s, events))
    decreases |events|
  {
    if |events| > 0 {
      RunPreservesConsistent(s, events[..|events| - 1]);
    }
  }

  /** `isMounted` never goes back to false, and it is true after any run
      that contains a notification. */
  lemma {:induction false} RunMounted(s: State, events: seq<Event>)
    ensures s.isMounted ==> Run(s, events).isMounted
    ensures LastNotification(events).Some? ==> Run(s, events).isMounted
    decreases |events|
  {
    if |events| > 0 {
      RunMounted(s, events[..|events| - 1]);
    }
  }

  /** The single-writer rule: only notifications write the auth fields.
      A run without a notification leaves them as they were; otherwise they
      are exactly what the last notification alone makes of them. */
  lemma {:induction false} RunSingleWriter(s: State, events: seq<Event>)
    ensures LastNotification(events).None? ==> SameSession(s, Run(s, events))
    ensures LastNotification(events).Some? ==>
              SameSession(Run(s, events), OnAuthStateChanged(s, LastNotification(events).value))
    decreases |events|
  {
    if |events| > 0 {
      RunSingleWriter(s, events[..|events| - 1]);
    }
  }

  /** Every notification hides the modal, and after it only an explicit
      open shows it again: the actions and closing leave it hidden. */
  lemma {:induction false} ModalHiddenUntilReopened(s: State, events: seq<Event>, k: nat)
    requires k < |events| && events[k].AuthChanged?
    requires forall j :: k < j < |events| ==> !events[j].OpenModal?
    ensures !Run(s, events).isVisibleAuthModal
    decreases |events|
  {
    if k < |events| - 1 {
      var prefix := events[..|events| - 1];
      assert forall j :: k < j < |prefix| ==> prefix[j] == events[j];
      ModalHiddenUntilReopened(s, prefix, k);
    }
  }

  /** The value `LastNotification` reports is the payload of a notification
      in `events` that no later notification follows. */
  lemma {:induction false} LastNotificationIsLast(events: seq<Event>)
    requires LastNotification(events).Some?
    ensures exists i :: 0 <= i < |events| && events[i].AuthChanged?
              && events[i].userState == LastNotification(events).value
              && forall j :: i < j < |events| ==> !events[j].AuthChanged?
    decreases |events|
  {
    var n := |events|;
    if events[n - 1].AuthChanged? {
      assert events[n - 1].userState == LastNotification(events).value;
    } else {
      var prefix := events[..n - 1];
      LastNotificationIsLast(prefix);
      var i :| 0 <= i < |prefix| && prefix[i].AuthChanged?
                && prefix[i].userState == LastNotification(prefix).value
                && forall j :: i < j < |prefix| ==> !prefix[j].AuthChanged?;
      assert events[i] == prefix[i];
      assert forall j :: i < j < n - 1 ==> events[j] == prefix[j];
    }
  }
}
