# Authentication session core of flashcardmaker, in Dafny

This project models the authentication boundary of the flashcardmaker web
application:

- the client session state machine of the auth provider (`IState`: modal
  visibility, logged-in flag, user profile, mounted flag), as a pure reducer
  over an immutable `State`, folded over arbitrary sequences of events;
- the provider's actions `register`, `login` and `logout`, which forward one
  request to the identity service and never write the session themselves;
- the server-side token check `verifyIDToken`, which strips the first
  `"Bearer "` and fails closed;
- `errorMessage`, which maps a thrown error to a user-facing message through
  a message table with a catch-all entry;
- the decision logic of the auth modal (mode, switching, closing, submitting)
  and of the header (which of skeleton / Login button / user menu it shows,
  the name fallbacks, the logging-out flag).

The identity service (Firebase) is an oracle parameter: `IdentityService`
answers every request with `Resolved` or `Rejected(error)`, and `Verifier`
answers every token with `Decoded(uid)` or `Threw(reason)`. The message
table `ERROR_MESSAGES` is a `map<string, string>` parameter. JavaScript's
`null`/`undefined` are `None`, and the `||` operator on strings, for which
`""` is falsy, is modelled in module `Js`.

Files: `wrappers.dfy` (Option, JavaScript truthiness), `errors.dfy`,
`id_token.dfy`, `auth_provider.dfy`, `auth_modal.dfy`, `header.dfy`, and
`client.dfy` (properties of the header and the modal over the reducer's runs).

Facts about the program that the model follows:

- Every notification hides the modal, including the one that reports no
  user.
- The token check removes the first `"Bearer "` wherever it occurs in the
  token, not only a leading one.
- The provider's `closeAuthModal` only hides the modal. The modal's own close
  handler resets the form.
- `errorMessage` returns `undefined` (`None`) when a Firebase code has no
  non-empty entry and the table has no `catchError` entry. The Firebase
  branch has no fixed default string.
- The sets API handler computes the token verdict but does not gate anything
  on it, so nothing here claims that requests are gated.

## Model

| member | source | states |
|---|---|---|
| `AuthProvider.InitialStateShape` | web/providers/AuthProvider/AuthProvider.tsx:36-41 | The initial session is unmounted, logged out, without a user, with the modal hidden, and satisfies the logged-in-iff-user invariant. |
| `AuthProvider.OpenAuthModal` | web/providers/AuthProvider/AuthProvider.tsx:67-69 | Opening shows the modal and leaves logged-in flag, user and mounted flag as they were. |
| `AuthProvider.CloseAuthModal` | web/providers/AuthProvider/AuthProvider.tsx:71-73 | Closing hides the modal and leaves logged-in flag, user and mounted flag as they were. |
| `AuthProvider.ModalTogglesIdempotent` | web/providers/AuthProvider/AuthProvider.tsx:67-73 | Opening twice is opening once, closing twice is closing once, and of an open and a close the later one decides. |
| `AuthProvider.OnAuthStateChanged` | web/providers/AuthProvider/AuthProvider.tsx:76-90 | Every notification mounts, hides the modal and keeps logged-in iff user; no user gives exactly the initial state mounted; a principal gives a logged-in session whose profile copies display name, email, email-verified and photo URL verbatim. |
| `AuthProvider.NotificationReplacesWholesale` | web/providers/AuthProvider/AuthProvider.tsx:77-89 | The session after a notification does not depend on the session before it (no merge with the previous user), and repeating a notification changes nothing. |
| `AuthProvider.Perform` | web/providers/AuthProvider/AuthProvider.tsx:94-107 | Register sends a create-user request and login a sign-in request with the payload's email and password, logout sends sign-out; the action's promise settles as the service answers and the session is unchanged either way. |
| `AuthProvider.Step` | web/providers/AuthProvider/AuthProvider.tsx:67-107 | One event keeps logged-in iff user, never unmounts, mounts and hides the modal on a notification, leaves the auth fields alone on every other event, leaves the whole state alone on an action, and only an open can show a hidden modal. |
| `AuthProvider.RunPreservesConsistent` | web/providers/AuthProvider/AuthProvider.tsx:36-107 | Over any sequence of events from a consistent session, logged-in stays equivalent to a user being present. |
| `AuthProvider.RunMounted` | web/providers/AuthProvider/AuthProvider.tsx:77-88 | Over any sequence of events the mounted flag never goes back to false, and it is true once any notification has been applied. |
| `AuthProvider.RunSingleWriter` | web/providers/AuthProvider/AuthProvider.tsx:67-107 | Only notifications write the auth fields: without a notification they end as they started, otherwise they are exactly what the last notification alone yields. |
| `AuthProvider.ModalHiddenUntilReopened` | web/providers/AuthProvider/AuthProvider.tsx:67-80 | After any notification in a run, the modal stays hidden until an explicit open, whatever actions and closes follow. |
| `AuthProvider.LastNotificationIsLast` | web/providers/AuthProvider/AuthProvider.tsx:76-90 | The payload reported as the last notification is that of a notification in the run which no later notification follows. |
| `Errors.ErrorMessage` | web/lib/error.ts:4-14 | A Firebase error whose code has a non-empty entry gets that entry; otherwise the catch-all entry, or undefined without one; any other error with a string message gets that message, even an empty one; anything else, null included, gets "Error occured". |
| `Errors.MessageProvenance` | web/lib/error.ts:7-13 | Every message comes from the table, from the error's own string message, or is the fixed text; only a Firebase error with a table lacking the catch-all yields undefined. |
| `Errors.FirebaseMessageIgnored` | web/lib/error.ts:5-9 | For a Firebase error only the code matters: its own message text never reaches the user. |
| `IdToken.IndexOf` | web/lib/verifyIDToken.ts:8 | The index found is an occurrence of the pattern and no earlier index is one; when none is found the pattern occurs nowhere. |
| `IdToken.RemoveFirst` | web/lib/verifyIDToken.ts:8 | Without an occurrence the token is passed unchanged; with one it loses exactly the pattern's length. |
| `IdToken.RemoveFirstInverse` | web/lib/verifyIDToken.ts:8 | Re-inserting the pattern at the first occurrence's index restores the original token, so only that one occurrence was removed. |
| `IdToken.LeadingBearerStripped` | web/lib/verifyIDToken.ts:8 | A token starting with "Bearer " loses exactly its seven leading characters. |
| `IdToken.NoBearerUnchanged` | web/lib/verifyIDToken.ts:8 | A token with no "Bearer " in it is handed to the verifier unchanged. |
| `IdToken.VerifyIdToken` | web/lib/verifyIDToken.ts:3-13 | An absent or empty token is refused without consulting the verifier; otherwise the verifier sees the token with its first "Bearer " removed, and the verdict is true exactly when the verifier returns rather than throws. |
| `IdToken.ResponseContentIgnored` | web/lib/verifyIDToken.ts:6-9 | Two verifiers that return and throw on the same inputs give the same verdict, whatever decoded content they return. |
| `IdToken.FailsClosed` | web/lib/verifyIDToken.ts:4-12 | A verifier that always throws never yields true, and a true verdict implies a present, non-empty token whose stripped form the verifier accepted. |
| `AuthModal.ConvertOppositeAuthType` | web/components/AuthModal/AuthModal.tsx:69-70 | The opposite mode is never the mode itself. |
| `AuthModal.ConvertOppositeInvolution` | web/components/AuthModal/AuthModal.tsx:69-70 | Taking the opposite mode twice gives back the original mode. |
| `AuthModal.Title` | web/components/AuthModal/AuthModal.tsx:35-38 | The heading is "Log in" exactly in login mode and "Register" exactly in register mode. |
| `AuthModal.OppositeTitleDiffers` | web/components/AuthModal/AuthModal.tsx:150-155 | The link to the other mode never shows the current heading. |
| `AuthModal.SwitchAuthType` | web/components/AuthModal/AuthModal.tsx:133-148 | Switching always changes the mode, and the form re-initialised for the new mode is not submitting. |
| `AuthModal.SwitchTwiceRestores` | web/components/AuthModal/AuthModal.tsx:133-148 | Switching twice restores the mode, and leaves the form reset. |
| `AuthModal.HandleCloseAuthModal` | web/components/AuthModal/AuthModal.tsx:142-146 | Closing returns the modal to its initial state (login mode, form reset, not submitting) and hides it in the session without touching the auth fields. |
| `AuthModal.OnSubmit` | web/components/AuthModal/AuthModal.tsx:89-122 | Login mode sends only a sign-in and register mode only a create-user, with the payload's email and password; success closes the modal in login mode with no toast; failure keeps session and mode and toasts errorMessage of the error; the submitting flag ends false and the auth fields are never written. |
| `Header.SelectBranch` | web/components/Header/Header.tsx:51-115 | The skeleton shows exactly when unmounted or logging out, the Login button exactly when mounted, not logging out and logged out, the user menu exactly when mounted, not logging out and logged in. |
| `Header.AvatarName` | web/components/Header/Header.tsx:74 | The avatar name is the display name, else the email, else ""; it is "" exactly when neither is a non-empty string. |
| `Header.AvatarSrc` | web/components/Header/Header.tsx:75 | The avatar image is the photo URL when it is a non-empty string and "" exactly otherwise. |
| `Header.MenuLabel` | web/components/Header/Header.tsx:89 | The menu's name line is the display name when it is a non-empty string, else "Anonymous", so it is never empty. |
| `Header.StartLogout` | web/components/Header/Header.tsx:23-26 | Starting a logout raises the flag, so the header shows the skeleton, and leaves the session alone. |
| `Header.SettleLogout` | web/components/Header/Header.tsx:26-30 | Whether the sign-out resolves or rejects, the flag ends down, no error escapes the handler, and the handler itself does not change the session. |
| `Header.HeaderRunSession` | web/components/Header/Header.tsx:23-31 | In any interleaving of provider events and logout clicks and settlings, the session is exactly what the provider's events alone make of it. |
| `Header.HeaderRunFlag` | web/components/Header/Header.tsx:20-31 | In any interleaving, the flag is up exactly when the last logout event was a click: it is down after the last settling, whatever its outcome. |
| `Header.SkeletonWhileLoggingOut` | web/components/Header/Header.tsx:51-52 | Between a click and its settling the header shows only the skeleton, whatever the provider does meanwhile. |
| `Client.NoLoginButtonBeforeFirstNotification` | web/components/Header/Header.tsx:51-59 | From the initial session, before any notification, the header shows the skeleton and never the Login button. |
| `Client.HeaderAfterFirstNotification` | web/components/Header/Header.tsx:51-61 | After the first notification the header, when not logging out, is never the skeleton and shows the user menu exactly when a user is present. |
| `Client.UserMenuHasUser` | web/components/Header/Header.tsx:61-74 | From the initial session, whenever the header shows the user menu there is a user to show in it. |
| `Client.LogoutRejectedKeepsUserMenu` | web/components/Header/Header.tsx:23-31 | A logged-in header whose sign-out is rejected shows the skeleton while it is awaited and then the user menu again with the same profile. |
| `Client.LogoutResolvedThenNotifiedShowsLogin` | web/providers/AuthProvider/AuthProvider.tsx:77 | A resolved sign-out followed by the no-user notification leaves the header showing the Login button with no user. |
| `Client.LoggedInUntilNotified` | web/components/Header/Header.tsx:23-61 | In any interleaving where every logout click has settled and no notification arrived, a logged-in header shows the user menu with the same profile: logging out takes effect only through the notification. |
| `Client.SubmitThenNotify` | web/components/AuthModal/AuthModal.tsx:110 | A successful submit followed by its notification leaves the user logged in with the notified email, no modal visible and the modal back in its initial local state. |
| `Client.FailedSubmitKeepsModalOpen` | web/components/AuthModal/AuthModal.tsx:111-118 | A rejected submit from a logged-out session with the modal open keeps it open, logged out, in the same mode, and shows a toast. |

## Left out

- Rendering and styling: the JSX markup, Chakra components and toast presentation; only the toast's title is modelled.
- Formik wiring: form values and validation (validationSchema.ts wraps yup, whose rules are not visible). The modal's local state is its mode and submitting flag. Of `resetForm` and the re-initialisation on a mode change, only the clearing of the submitting flag is modelled.
- React lifecycle: subscribing and unsubscribing to `onAuthStateChanged` and the `useAuth` context guard; notifications are an input sequence of events.
- Firebase calls (`createUserWithEmailAndPassword`, `signInWithEmailAndPassword`, `signOut`, `verifyIdToken`) are oracle parameters, and `console.dir` in error.ts is output only.
- Async interleaving: each action, notification and submit is one atomic step. The header's logout handler is split into its start and its settling, and provider events may interleave between them. The model does not tie a resolved sign-out to the notification that follows it, so a run may contain either without the other.
- Errors.ErrorMessage: the table is a map of strings, so a code naming an inherited object property (such as `constructor`) is treated as absent rather than returning that property.
- The `default` branch of the submit switch, which no mode reaches.
- firebaseAdmin.ts (environment configuration), the mongoose models and the sets API handler; the handler does not gate on the verdict, and the model claims no gating.
