/** The decision logic of the login / register modal
    (web/components/AuthModal/AuthModal.tsx): its mode, its title, closing
    it, and what a submit does. */
module AuthModal {
  import opened Wrappers
  import Errors
  import AuthProvider

  /** The two modes of the modal. */
  datatype AuthType = Login | Register

  /** The other mode. */
  function ConvertOppositeAuthType(t: AuthType): (r: AuthType)
    ensures r != t
  {
    if t == Login then Register else Login
  }

  lemma ConvertOppositeInvolution(t: AuthType)
    ensures ConvertOppositeAuthType(ConvertOppositeAuthType(t)) == t
  {
  }

  /** The heading of the modal in each mode. */
  function Title(t: AuthType): (title: string)
    ensures title == "Log in" <==> t == Login
    ensures title == "Register" <==> t == Register
  {
    match t
    case Login => "Log in"
    case Register => "Register"
  }

  /** The link to the other mode never repeats the current heading. */
  lemma OppositeTitleDiffers(t: AuthType)
    ensures Title(ConvertOppositeAuthType(t)) != Title(t)
  {
  }

  /** The modal's own state, next to the provider's session. */
  datatype Local = Local(authType: AuthType, isSubmitting: bool)

  /** The state the modal starts in: login mode, nothing in flight. */
  const InitialLocal: Local := Local(Login, false)

  /** The form's state after formik resets it: nothing is being submitted. */
  function ResetForm(m: Local): (r: Local)
    ensures r.authType == m.authType && !r.isSubmitting
  {
    m.(isSubmitting := false)
  }

  /** switchAuthType: flips the mode. The two modes have different initial
      form values, so with re-initialisation enabled formik resets the form,
      which also clears the submitting flag. */
  function SwitchAuthType(m: Local): (r: Local)
    ensures r.authType != m.authType && !r.isSubmitting
  {
    ResetForm(m.(authType := ConvertOppositeAuthType(m.authType)))
  }

  /** Switching twice brings the mode back, with the form reset. */
  lemma SwitchTwiceRestores(m: Local)
    ensures SwitchAuthType(SwitchAuthType(m)).authType == m.authType
    ensures SwitchAuthType(SwitchAuthType(m)) == ResetForm(m)
  {
  }

  /** handleCloseAuthModal: back to login mode, the form reset (so nothing
      is being submitted), and the provider hides the modal without touching
      the session. */
  function HandleCloseAuthModal(s: AuthProvider.State, m: Local): (r: (AuthProvider.State, Local))
    ensures r.1 == InitialLocal
    ensures !r.0.isVisibleAuthModal && AuthProvider.SameSession(s, r.0)
  {
    (AuthProvider.CloseAuthModal(s), ResetForm(m.(authType := Login)))
  }

  /** The values the form hands to the submit handler. */
  datatype Payload = Payload(email: string, password: string, confirmPassword: Option<string>)

  /** What a submit leaves behind: the provider's session, the modal's own
      state, the request that went out and the error toast, if one was shown
      (its title is errorMessage of what was thrown). */
  datatype SubmitResult = SubmitResult(
    session: AuthProvider.State,
    local: Local,
    sent: AuthProvider.Request,
    toast: Option<Option<string>>)

  /** onSubmitHandler: log in or register according to the mode; on success
      close the modal, on failure show the mapped error; in both cases clear
      the submitting flag. */
  function OnSubmit(table: Errors.MessageTable, s: AuthProvider.State, m: Local,
                    payload: Payload, service: AuthProvider.IdentityService): (r: SubmitResult)
    // the mode picks the one call made, with the payload's email and password
    ensures m.authType == Login ==> r.sent == AuthProvider.SignIn(payload.email, payload.password)
    ensures m.authType == Register ==> r.sent == AuthProvider.CreateUser(payload.email, payload.password)
    // success: closed, back in login mode, no toast
    ensures service(r.sent).Resolved? ==>
              !r.session.isVisibleAuthModal && r.local.authType == Login && r.toast.None?
    // failure: the modal stays as it was and the toast carries the mapped message
    ensures service(r.sent).Rejected? ==>
              r.session == s && r.local.authType == m.authType
              && r.toast == Some(Errors.ErrorMessage(table, service(r.sent).error))
    // whatever happens: not submitting, and the auth fields untouched
    ensures !r.local.isSubmitting
    ensures AuthProvider.SameSession(s, r.session)
  {
    var credentials := AuthProvider.Credentials(payload.email, payload.password);
    var action := match m.authType
      case Login => AuthProvider.Login(credentials)
      case Register => AuthProvider.Register(credentials);
    var done := AuthProvider.Perform(s, action, service);
    var settled :=
      if done.outcome.Resolved? then
        var closed := HandleCloseAuthModal(done.state, m);
        SubmitResult(closed.0, closed.1, done.sent, None)
      else
        SubmitResult(done.state, m, done.sent, Some(Errors.ErrorMessage(table, done.outcome.error)));
    // the finally block clears the submitting flag on both paths
    settled.(local := settled.local.(isSubmitting := false))
  }
}
