# Email sign-in / sign-up form controller

A Dafny model of the form logic of the app's `EmailSignInScreen`. The screen
keeps six pieces of state: the email and password text, password visibility,
the sign-in or sign-up mode, a loading flag, and a record of field errors.
Its handlers change that state:

- the continue button validates both fields, stores the fresh error record
  and, when it is empty, starts loading;
- the completion timer ends loading and navigates to the tabs area;
- the mode switch flips the mode and clears the errors;
- each text field stores its new text and clears its own error;
- the eye button flips password visibility.

Layout:

- `Validation.dfy` (module `Validation`): the email regular expression
  `/^[^\s@]+@[^\s@]+\.[^\s@]+$/`, the password length rule, the four
  user-visible messages and the error record computed by a submit.
  - The regular expression's language is stated as a split
    `local + "@" + host + "." + rest` of three `[^\s@]+` runs
    (`MatchesEmailPattern`).
  - `ValidateEmail` decides it by searching positions, and is proved equal to it.
  - The language is also proved equal to a plain description: no whitespace,
    exactly one `@` with text before it, and a `.` with text on both sides
    after the `@`.
- `FormController.dfy` (module `FormController`): the screen state as a
  value (`FormState`), one transition function per handler, and lemmas
  about them. It also has the event sequences the screen can receive
  (`Event`, `Run`) and an invariant kept by every run from the first render.
- `SignInScreen.dfy` (module `SignInScreen`): the screen as a class whose
  fields are the state and whose methods are the handlers. Each method is
  proved to perform the matching transition. `SignInSession` is a client
  that uses only the methods' contracts.

Two facts about the code shape the model:

- The code never calls a backend. It schedules a timer that always
  navigates, so there is no failure path and no form-level error.
- `password.length` counts UTF-16 code units, so a character outside the
  Basic Multilingual Plane counts twice towards the six.

Modelling decisions:

- JavaScript's `\s` is the fixed set of ECMAScript WhiteSpace and
  LineTerminator characters (`Validation.IsWs`).
- Dafny's `char` is a Unicode scalar value, not a UTF-16 code unit. For this
  pattern that changes nothing. A character outside the Basic Multilingual
  Plane is a surrogate pair in JavaScript. Both halves are in `[^\s@]`, so
  every run stays non-empty either way.
- React state updates are applied one after another, in the order the
  handler issues them.
- `setTimeout` becomes a counter of scheduled completions (`pendingTimers`)
  and an explicit `CompleteAuth` event.
- `router.replace('/(tabs)')` becomes the flag `navigatedToTabs`. Replacing
  the screen means no later event reaches it: `Step` ignores every event
  once the flag is set, and `Run` is proved to leave such a state unchanged.

## Model

| member | source | states |
|---|---|---|
| `Validation.ValidateEmail` | app/auth/email-signin.tsx:29-32 | the test succeeds exactly for strings that split as `[^\s@]+` `@` `[^\s@]+` `.` `[^\s@]+` |
| `Validation.EmailPatternIffSimpleShape` | app/auth/email-signin.tsx:30 | the pattern accepts exactly the strings with no whitespace, one `@` not in first place, and a `.` with text on both sides after the `@` |
| `Validation.AcceptsSampleAddress` | app/auth/email-signin.tsx:30 | `a@b.com` is accepted |
| `Validation.RejectsFoo` | app/auth/email-signin.tsx:30 | `foo` is rejected |
| `Validation.RejectsEmpty` | app/auth/email-signin.tsx:30 | the empty string is rejected |
| `Validation.RejectsWhitespace` | app/auth/email-signin.tsx:30 | any string with a whitespace character is rejected |
| `Validation.RejectsTwoAtSigns` | app/auth/email-signin.tsx:30 | any string with two `@` is rejected |
| `Validation.RejectsEmptyLocalPart` | app/auth/email-signin.tsx:30 | a string that starts with `@` is rejected |
| `Validation.RejectsDomainWithoutInteriorDot` | app/auth/email-signin.tsx:30 | a string whose text after an `@` has no `.` with text on both sides is rejected |
| `Validation.IsWs` | app/auth/email-signin.tsx:30 | defines `\s` as the ECMAScript WhiteSpace and LineTerminator characters; used by the pattern lemmas above |
| `Validation.ValidatePassword` | app/auth/email-signin.tsx:34-36 | the rule compares JavaScript `length` with 6; for text in the Basic Multilingual Plane it holds exactly when there are at least 6 characters |
| `Validation.Utf16Length` | app/auth/email-signin.tsx:35 | JavaScript `length` is between the character count and twice it, and is 0 only for the empty string |
| `Validation.Utf16LengthOfBmp` | app/auth/email-signin.tsx:35 | for text in the Basic Multilingual Plane, `length` is the character count |
| `Validation.PasswordSamples` | app/auth/email-signin.tsx:34-36 | `12345` fails the length rule and `123456` passes |
| `Validation.AstralPasswordCountsCodeUnits` | app/auth/email-signin.tsx:35 | three characters outside the Basic Multilingual Plane pass the rule, because they are six code units |
| `Validation.EmailError` | app/auth/email-signin.tsx:41-45 | 'Email is required' exactly for the empty email; 'Please enter a valid email' exactly for a non-empty email outside the pattern; no error exactly for an email in the pattern |
| `Validation.PasswordError` | app/auth/email-signin.tsx:47-51 | 'Password is required' exactly for the empty password; 'Password must be at least 6 characters' exactly for 1 to 5 code units; no error exactly from 6 code units on |
| `Validation.ValidationErrors` | app/auth/email-signin.tsx:39-55 | the fresh error record is empty exactly when the email is in the pattern and the password has at least 6 code units |
| `Validation.ValidationErrorsUseFieldMessages` | app/auth/email-signin.tsx:42-50 | each field of the fresh record is absent or one of that field's two messages |
| `Validation.SampleValidationErrors` | app/auth/email-signin.tsx:39-51 | the errors for ("", ""), ("foo", "12345") and ("a@b.com", "123456") |
| `FormController.Initial` | app/auth/email-signin.tsx:18-23 | the `useState` defaults: empty text, hidden password, sign-in mode, not loading, no errors, nothing scheduled, not navigated |
| `FormController.IsShown` | app/auth/email-signin.tsx:151 | defines the truthiness test of `errors.email` (line 151) and `errors.password` (line 189); see `EditEmailFacts` and `EditClearsStoredError` |
| `FormController.Submit` | app/auth/email-signin.tsx:38-72 | defines the `handleContinue` transition; its properties are the `Submit...` lemmas below |
| `FormController.PressContinue` | app/auth/email-signin.tsx:251-252 | defines the guarded button press; see `PressWhileLoadingIsNoOp` |
| `FormController.ToggleAuthMode` | app/auth/email-signin.tsx:78-81 | defines the `toggleAuthMode` transition; see `ToggleAuthModeFacts` |
| `FormController.EditEmail` | app/auth/email-signin.tsx:149-153 | defines the email `onChangeText` transition; see `EditEmailFacts` |
| `FormController.EditPassword` | app/auth/email-signin.tsx:187-191 | defines the password `onChangeText` transition; see `EditPasswordFacts` |
| `FormController.TogglePasswordVisibility` | app/auth/email-signin.tsx:205 | defines the eye-button transition; see `TogglePasswordVisibilityFacts` |
| `FormController.CompleteAuth` | app/auth/email-signin.tsx:67-70 | defines the timer completion; see `CompleteAuthFacts` |
| `FormController.Step` | app/auth/email-signin.tsx:38-81 | one event on the screen; a timer fires only when one is scheduled, and nothing reaches the screen after `router.replace` |
| `FormController.Run` | app/auth/email-signin.tsx:67-70 | events delivered in order; once the screen has navigated, any further events leave the state unchanged |
| `FormController.SubmitReplacesErrors` | app/auth/email-signin.tsx:39-53 | after a submit each stored error is the new pass's error for that field; email, password, mode, visibility and navigation are unchanged |
| `FormController.SubmitForgetsOldErrors` | app/auth/email-signin.tsx:53 | the errors after a submit depend only on the email and password text, not on the errors shown before |
| `FormController.SubmitStartsLoadingIffValid` | app/auth/email-signin.tsx:55-70 | from a non-loading state, a submit starts loading exactly when both fields pass; it then has no errors and schedules one completion, and otherwise schedules none |
| `FormController.SubmitIgnoresMode` | app/auth/email-signin.tsx:38-72 | a submit in sign-up mode gives the same result as in sign-in mode, apart from the mode itself |
| `FormController.PressWhileLoadingIsNoOp` | app/auth/email-signin.tsx:251-252 | while loading, a press of the continue button leaves the state unchanged |
| `FormController.ToggleAuthModeFacts` | app/auth/email-signin.tsx:78-81 | the mode is flipped, the errors are cleared and nothing else changes; toggling twice restores the mode, with the errors clear |
| `FormController.EditEmailFacts` | app/auth/email-signin.tsx:149-153 | the new email is stored, a shown email error is removed, the password error is kept, and nothing else changes |
| `FormController.EditPasswordFacts` | app/auth/email-signin.tsx:187-191 | the new password is stored, a shown password error is removed, the email error is kept, and nothing else changes |
| `FormController.TogglePasswordVisibilityFacts` | app/auth/email-signin.tsx:205 | visibility is flipped and nothing else changes (text, errors, mode, loading, navigation); flipping twice restores the state |
| `FormController.CompleteAuthFacts` | app/auth/email-signin.tsx:67-70 | completion ends loading, navigates and uses up one scheduled timer; the errors, the typed text, the mode and visibility are kept |
| `FormController.StepPreservesWellFormed` | app/auth/email-signin.tsx:38-81 | every event keeps the invariant: only the form's four messages are stored, loading means exactly one scheduled completion, and there are no errors while loading |
| `FormController.RunPreservesWellFormed` | app/auth/email-signin.tsx:38-81 | any sequence of events keeps that invariant |
| `FormController.AtMostOneAttemptInFlight` | app/auth/email-signin.tsx:55-70 | from the first render, at most one completion is ever scheduled, loading means one is pending, and there are no errors while loading |
| `FormController.EditClearsStoredError` | app/auth/email-signin.tsx:149-153 | in a reachable state, editing a field always leaves that field without an error |
| `FormController.EmptySubmitScenario` | app/auth/email-signin.tsx:41-53 | with both fields empty, pressing continue stores both 'required' messages and does not start loading |
| `FormController.SampleSignInValid` | app/auth/email-signin.tsx:39-55 | `a@b.com` with `secret1` gives an empty error record |
| `FormController.SuccessfulSignInScenario` | app/auth/email-signin.tsx:38-70 | `a@b.com` / `secret1`, a press, then the timer: not loading, no errors, navigated |
| `SignInScreen.EmailSignInScreen.constructor` | app/auth/email-signin.tsx:18-23 | the initial state: empty text, hidden password, sign-in mode, not loading, no errors |
| `SignInScreen.EmailSignInScreen.HandleContinue` | app/auth/email-signin.tsx:38-72 | the handler builds the error record field by field and performs the submit transition |
| `SignInScreen.EmailSignInScreen.PressContinue` | app/auth/email-signin.tsx:251-252 | the button performs a submit unless loading, when it changes nothing |
| `SignInScreen.EmailSignInScreen.ToggleAuthMode` | app/auth/email-signin.tsx:78-81 | the mode is flipped and the errors are cleared; no other field changes |
| `SignInScreen.EmailSignInScreen.ChangeEmailText` | app/auth/email-signin.tsx:149-154 | the email text is stored and a shown email error is removed; the password error is kept |
| `SignInScreen.EmailSignInScreen.ChangePasswordText` | app/auth/email-signin.tsx:187-192 | the password text is stored and a shown password error is removed; the email error is kept |
| `SignInScreen.EmailSignInScreen.TogglePasswordVisibility` | app/auth/email-signin.tsx:205 | only the visibility flag flips |
| `SignInScreen.EmailSignInScreen.CompleteAuth` | app/auth/email-signin.tsx:67-70 | loading ends, navigation is signalled and one scheduled completion is used up |
| `SignInScreen.SignInSession` | app/auth/email-signin.tsx:38-81 | an empty submit, two edits, a submit, a press while loading and the completion end navigated, not loading and with no errors |

## Left out

- `handleBack` (`router.back()`): it only calls the navigation library.
- The 1500 ms delay of the completion timer: time is not modelled. Only the
  order of events is.
- Authentication against the backend and its failures. The code never calls
  the backend, so there is no rejected or unreachable outcome and no form-level
  error.
- The button-press and input-focus spring animations: they use floating
  point and an animation library, and do not affect the form state.
- Rendering and styles. This includes the mode-dependent titles and labels
  and the visibility of the "forgot password" link, whose handler is empty.
- `lib/supabase.ts` has no logic. It reads two environment variables,
  configures a client through a library call, and declares table shapes.
- The handler methods of `SignInScreen.EmailSignInScreen` can still be
  called after `CompleteAuth`. The real screen is gone by then. The event
  model (`FormController.Step`, `FormController.Run`) does capture this.
- React's batched updates and stale closures. The model applies each
  handler's updates sequentially to the current state.
