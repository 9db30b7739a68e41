/** Properties of the client as a whole: the header and the modal read the
    session the provider's reducer produces. */
module Client {
  import opened Wrappers
  import Errors
  import AuthProvider
  import AuthModal
  import Header

  /** Before the first notification the header shows only the skeleton:
      the Login button cannot flash for a user whose status is not yet known. */
  lemma {:induction false} NoLoginButtonBeforeFirstNotification(events: seq<AuthProvider.Event>, isLoggingOut: bool)
    requires AuthProvider.LastNotification(events).None?
    ensures Header.View(AuthProvider.Run(AuthProvider.InitialState, events), isLoggingOut) == Header.Skeleton
  {
    AuthProvider.RunSingleWriter(AuthProvider.InitialState, events);
  }

  /** Once a notification has arrived, the header leaves the skeleton for
      good (unless a logout is in flight), and it shows the user menu exactly
      when there is a user to show. */
  lemma {:induction false} HeaderAfterFirstNotification(events: seq<AuthProvider.Event>)
    requires AuthProvider.LastNotification(events).Some?
    ensures var s := AuthProvider.Run(AuthProvider.InitialState, events);
            Header.View(s, false) != Header.Skeleton
            && (Header.View(s, false) == Header.UserMenu <==> s.user.Some?)
  {
    AuthProvider.RunMounted(AuthProvider.InitialState, events);
    AuthProvider.RunPreservesConsistent(AuthProvider.InitialState, events);
  }

  /** The header never offers the user menu without a user behind it. */
  lemma {:induction false} UserMenuHasUser(events: seq<AuthProvider.Event>, isLoggingOut: bool)
    ensures var s := AuthProvider.Run(AuthProvider.InitialState, events);
            Header.View(s, isLoggingOut) == Header.UserMenu ==> s.user.Some?
  {
    AuthProvider.RunPreservesConsistent(AuthProvider.InitialState, events);
  }

  /** A logout the service rejects: the skeleton while it is awaited, then
      the user menu again with the same profile, since no notification
      follows a failed sign-out. */
  lemma LogoutRejectedKeepsUserMenu(h: Header.HeaderState, e: Errors.ErrorValue)
    requires h.session.isMounted && h.session.isLoggedIn
    ensures var started := Header.StartLogout(h);
            var settled := Header.SettleLogout(started, AuthProvider.Rejected(e)).header;
            Header.Shown(started) == Header.Skeleton
            && Header.Shown(settled) == Header.UserMenu
            && settled.session.user == h.session.user
  {
  }

  /** A logout the service resolves: the identity service then reports that
      no user is signed in, and the header shows the Login button. */
  lemma LogoutResolvedThenNotifiedShowsLogin(h: Header.HeaderState)
    ensures var settled := Header.SettleLogout(Header.StartLogout(h), AuthProvider.Resolved).header;
            var after := Header.HeaderStep(settled, Header.Provider(AuthProvider.AuthChanged(None)));
            Header.Shown(after) == Header.LoginButton && after.session.user.None?
  {
  }

  /** Over any interleaving: once every click on "Log out" has settled,
      whatever the outcomes, a logged-in header that received no notification
      meanwhile shows the user menu with the same profile. Logging out
      takes effect only through the notification. */
  lemma {:induction false} LoggedInUntilNotified(h: Header.HeaderState, events: seq<Header.HeaderEvent>)
    requires h.session.isMounted && h.session.isLoggedIn
    requires AuthProvider.LastNotification(Header.ProviderEvents(events)).None?
    requires Header.LastLogoutEvent(events) == Some(false)
    ensures Header.Shown(Header.HeaderRun(h, events)) == Header.UserMenu
    ensures Header.HeaderRun(h, events).session.user == h.session.user
  {
    Header.HeaderRunSession(h, events);
    Header.HeaderRunFlag(h, events);
    AuthProvider.RunSingleWriter(h.session, Header.ProviderEvents(events));
  }

  /** A successful submit followed by the notification it causes: the user
      is logged in with the notified profile and no modal is visible. */
  lemma SubmitThenNotify(table: Errors.MessageTable, s: AuthProvider.State, m: AuthModal.Local,
                         payload: AuthModal.Payload, service: AuthProvider.IdentityService,
                         p: AuthProvider.Principal)
    requires service(AuthModal.OnSubmit(table, s, m, payload, service).sent).Resolved?
    ensures var r := AuthModal.OnSubmit(table, s, m, payload, service);
            var after := AuthProvider.OnAuthStateChanged(r.session, Some(p));
            after.isLoggedIn && after.user.Some? && after.user.value.email == p.email
            && !after.isVisibleAuthModal && r.local == AuthModal.InitialLocal
  {
  }

  /** A submit the service rejects leaves a logged-out session logged out
      and keeps the modal open in the mode it was in. */
  lemma FailedSubmitKeepsModalOpen(table: Errors.MessageTable, s: AuthProvider.State, m: AuthModal.Local,
                                   payload: AuthModal.Payload, service: AuthProvider.IdentityService)
    requires s.isVisibleAuthModal && !s.isLoggedIn
    requires service(AuthModal.OnSubmit(table, s, m, payload, service).sent).Rejected?
    ensures var r := AuthModal.OnSubmit(table, s, m, payload, service);
            r.session.isVisibleAuthModal && !r.session.isLoggedIn && r.local.authType == m.authType
            && r.toast.Some?
  {
  }
}
