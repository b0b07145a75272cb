/** The state machine of the email sign-in/sign-up screen, as values: the
    screen's state, one transition per event handler, and what the handlers
    promise. The class in SignInScreen.dfy is proved to follow these
    transitions. */
module FormController {
  import opened Validation

  /** The six `useState` values of the screen, plus the number of completion
      timers that are scheduled and not yet fired, and whether the screen has
      replaced itself by the tabs area. */
  datatype FormState = FormState(
    email: string,
    password: string,
    showPassword: bool,
    isSignUp: bool,
    isLoading: bool,
    errors: FieldErrors,
    pendingTimers: nat,
    navigatedToTabs: bool)

  /** The state at first render. */
  const Initial: FormState :=
    FormState("", "", false, false, false, NoErrors, 0, false)

  /** JavaScript truthiness of an optional message: the tests
      `if (errors.email)` and `if (errors.password)` in the two `onChangeText`
      handlers. */
  predicate IsShown(m: Option<string>) {
    m.Some? && m.value != []
  }

  // ---------------------------------------------------------------------------
  // Transitions
  // ---------------------------------------------------------------------------

  /** `handleContinue`: replace the errors by a fresh validation pass; when it
      found nothing, start loading and schedule the completion timer. */
  function Submit(s: FormState): FormState {
    var newErrors := ValidationErrors(s.email, s.password);
    if newErrors.IsEmpty() then
      s.(errors := newErrors, isLoading := true, pendingTimers := s.pendingTimers + 1)
    else
      s.(errors := newErrors)
  }

  /** A press of the continue button, which is disabled while loading. */
  function PressContinue(s: FormState): FormState {
    if s.isLoading then s else Submit(s)
  }

  /** `toggleAuthMode`. */
  function ToggleAuthMode(s: FormState): FormState {
    s.(isSignUp := !s.isSignUp, errors := NoErrors)
  }

  /** The email field's `onChangeText`. */
  function EditEmail(s: FormState, text: string): FormState {
    s.(email := text,
       errors := if IsShown(s.errors.email) then s.errors.(email := None) else s.errors)
  }

  /** The password field's `onChangeText`. */
  function EditPassword(s: FormState, text: string): FormState {
    s.(password := text,
       errors := if IsShown(s.errors.password) then s.errors.(password := None) else s.errors)
  }

  /** The eye button next to the password field. */
  function TogglePasswordVisibility(s: FormState): FormState {
    s.(showPassword := !s.showPassword)
  }

  /** The completion timer fires: loading ends and the screen navigates. */
  function CompleteAuth(s: FormState): FormState
    requires s.pendingTimers > 0
  {
    s.(isLoading := false, navigatedToTabs := true, pendingTimers := s.pendingTimers - 1)
  }

  // ---------------------------------------------------------------------------
  // Submit
  // ---------------------------------------------------------------------------

  /** The stored errors are exactly the new pass's errors, whatever was shown
      before; the typed text and the other settings are untouched. */
  lemma SubmitReplacesErrors(s: FormState)
    ensures Submit(s).errors.email == EmailError(s.email)
    ensures Submit(s).errors.password == PasswordError(s.password)
    ensures Submit(s).email == s.email && Submit(s).password == s.password
    ensures Submit(s).isSignUp == s.isSignUp && Submit(s).showPassword == s.showPassword
    ensures Submit(s).navigatedToTabs == s.navigatedToTabs
  {
  }

  /** No earlier error survives a submit: two states with the same text give
      the same errors after a submit. */
  lemma SubmitForgetsOldErrors(s: FormState, t: FormState)
    requires s.email == t.email && s.password == t.password
    ensures Submit(s).errors == Submit(t).errors
  {
  }

  /** Loading starts exactly when both fields pass validation. */
  lemma SubmitStartsLoadingIffValid(s: FormState)
    requires !s.isLoading
    ensures Submit(s).isLoading <==>
      MatchesEmailPattern(s.email) && Utf16Length(s.password) >= MinPasswordLength
    ensures Submit(s).isLoading ==> Submit(s).errors == NoErrors
    ensures Submit(s).pendingTimers == s.pendingTimers + (if Submit(s).isLoading then 1 else 0)
  {
  }

  /** Validation does not look at the mode: the same text gives the same next
      errors and loading state when signing in and when signing up. */
  lemma SubmitIgnoresMode(s: FormState)
    ensures Submit(s.(isSignUp := !s.isSignUp)) == Submit(s).(isSignUp := !s.isSignUp)
  {
  }

  /** While loading, a press of the continue button changes nothing. */
  lemma PressWhileLoadingIsNoOp(s: FormState)
    requires s.isLoading
    ensures PressContinue(s) == s
  {
  }

  // ---------------------------------------------------------------------------
  // Mode, editing, visibility, completion
  // ---------------------------------------------------------------------------

  /** Toggling the mode flips it, clears every error and touches nothing else;
      toggling twice restores the mode with the errors still clear. */
  lemma ToggleAuthModeFacts(s: FormState)
    ensures ToggleAuthMode(s).isSignUp == !s.isSignUp
    ensures ToggleAuthMode(s).errors == NoErrors
    ensures ToggleAuthMode(s).(isSignUp := s.isSignUp, errors := s.errors) == s
    ensures ToggleAuthMode(ToggleAuthMode(s)) == s.(errors := NoErrors)
  {
  }

  /** Editing the email stores the text, leaves the password error as it was,
      and removes a shown email error. */
  lemma EditEmailFacts(s: FormState, text: string)
    ensures EditEmail(s, text).email == text
    ensures EditEmail(s, text).errors.password == s.errors.password
    ensures !IsShown(EditEmail(s, text).errors.email)
    ensures EditEmail(s, text).(email := s.email, errors := s.errors) == s
  {
  }

  /** Editing the password: the same, field for field. */
  lemma EditPasswordFacts(s: FormState, text: string)
    ensures EditPassword(s, text).password == text
    ensures EditPassword(s, text).errors.email == s.errors.email
    ensures !IsShown(EditPassword(s, text).errors.password)
    ensures EditPassword(s, text).(password := s.password, errors := s.errors) == s
  {
  }

  /** The eye button flips visibility and nothing else: the text, the errors,
      the mode and the loading state are untouched. */
  lemma TogglePasswordVisibilityFacts(s: FormState)
    ensures TogglePasswordVisibility(s).showPassword == !s.showPassword
    ensures TogglePasswordVisibility(s).(showPassword := s.showPassword) == s
    ensures TogglePasswordVisibility(TogglePasswordVisibility(s)) == s
  {
  }

  /** Completion ends loading, navigates and uses up one scheduled timer;
      everything else is kept. */
  lemma CompleteAuthFacts(s: FormState)
    requires s.pendingTimers > 0
    ensures !CompleteAuth(s).isLoading && CompleteAuth(s).navigatedToTabs
    ensures CompleteAuth(s).pendingTimers == s.pendingTimers - 1
    ensures CompleteAuth(s).errors == s.errors
    ensures CompleteAuth(s).email == s.email && CompleteAuth(s).password == s.password
    ensures CompleteAuth(s).(isLoading := s.isLoading, navigatedToTabs := s.navigatedToTabs,
                             pendingTimers := s.pendingTimers) == s
  {
  }

  // ---------------------------------------------------------------------------
  // Runs of user events
  // ---------------------------------------------------------------------------

  /** What the user (or the completion timer) can do to the screen. */
  datatype Event =
    | ContinuePressed
    | EmailChanged(text: string)
    | PasswordChanged(text: string)
    | AuthModeToggled
    | PasswordVisibilityToggled
    | TimerFired

  /** One event. A timer can only fire when one is scheduled, and once the
      completion has replaced the screen by the tabs area no event reaches it. */
  function Step(s: FormState, e: Event): FormState {
    if s.navigatedToTabs then s else
    match e
    case ContinuePressed => PressContinue(s)
    case EmailChanged(t) => EditEmail(s, t)
    case PasswordChanged(t) => EditPassword(s, t)
    case AuthModeToggled => ToggleAuthMode(s)
    case PasswordVisibilityToggled => TogglePasswordVisibility(s)
    case TimerFired => if s.pendingTimers > 0 then CompleteAuth(s) else s
  }

  /** The events processed one after another, as the event queue delivers
      them. After navigation the state is final. */
  function Run(s: FormState, es: seq<Event>): (r: FormState)
    ensures s.navigatedToTabs ==> r == s
    decreases |es|
  {
    if es == [] then s else Run(Step(s, es[0]), es[1..])
  }

  /** The invariant of every state reachable from the first render: every
      stored message is one of the form's four messages; loading means exactly one
      completion is scheduled; and while loading nothing is in error. */
  predicate WellFormed(s: FormState) {
    IsEmailMessage(s.errors.email) && IsPasswordMessage(s.errors.password) &&
    s.pendingTimers == (if s.isLoading then 1 else 0) &&
    (s.isLoading ==> s.errors == NoErrors)
  }

  lemma StepPreservesWellFormed(s: FormState, e: Event)
    requires WellFormed(s)
    ensures WellFormed(Step(s, e))
  {
    if e == ContinuePressed && !s.isLoading {
      ValidationErrorsUseFieldMessages(s.email, s.password);
    }
  }

  lemma {:induction false} RunPreservesWellFormed(s: FormState, es: seq<Event>)
    requires WellFormed(s)
    ensures WellFormed(Run(s, es))
    decreases |es|
  {
    if es != [] {
      StepPreservesWellFormed(s, es[0]);
      RunPreservesWellFormed(Step(s, es[0]), es[1..]);
    }
  }

  /** At most one sign-in attempt is in flight at any time, and while it is
      the form shows no error. */
  lemma AtMostOneAttemptInFlight(es: seq<Event>)
    ensures Run(Initial, es).pendingTimers <= 1
    ensures Run(Initial, es).isLoading <==> Run(Initial, es).pendingTimers == 1
    ensures Run(Initial, es).isLoading ==> Run(Initial, es).errors == NoErrors
  {
    RunPreservesWellFormed(Initial, es);
  }

  /** In a reachable state, editing a field always removes its error. */
  lemma EditClearsStoredError(s: FormState, text: string)
    requires WellFormed(s)
    ensures EditEmail(s, text).errors.email == None
    ensures EditPassword(s, text).errors.password == None
  {
  }

  /** Emptying both fields and pressing continue shows both "required"
      messages and does not start loading. */
  lemma EmptySubmitScenario()
    ensures Run(Initial, [EmailChanged(""), PasswordChanged(""), ContinuePressed]) ==
      Initial.(errors := FieldErrors(Some(EmailRequiredMessage), Some(PasswordRequiredMessage)))
  {
    var s1 := Step(Initial, EmailChanged(""));
    var s2 := Step(s1, PasswordChanged(""));
    var s3 := Step(s2, ContinuePressed);
    SampleValidationErrors();
    assert s3 == Initial.(errors := FieldErrors(Some(EmailRequiredMessage), Some(PasswordRequiredMessage)));
    assert Run(Initial, [EmailChanged(""), PasswordChanged(""), ContinuePressed]) == Run(s1, [PasswordChanged(""), ContinuePressed]);
    assert Run(s1, [PasswordChanged(""), ContinuePressed]) == Run(s2, [ContinuePressed]);
    assert Run(s2, [ContinuePressed]) == Run(s3, []);
  }

  lemma SampleSignInValid()
    ensures ValidationErrors("a@b.com", "secret1") == NoErrors
  {
    AcceptsSampleAddress();
    Utf16LengthOfBmp("secret1");
  }

  /** A valid address and password, a press, and the timer: loading has ended,
      nothing is in error, and the screen has navigated to the tabs area. */
  lemma SuccessfulSignInScenario()
    ensures Run(Initial, [EmailChanged("a@b.com"), PasswordChanged("secret1"), ContinuePressed, TimerFired]) ==
      Initial.(email := "a@b.com", password := "secret1", navigatedToTabs := true)
  {
    SampleSignInValid();
    var es := [EmailChanged("a@b.com"), PasswordChanged("secret1"), ContinuePressed, TimerFired];
    var s1 := Initial.(email := "a@b.com");
    var s2 := s1.(password := "secret1");
    var s3 := s2.(isLoading := true, pendingTimers := 1);
    var s4 := s2.(navigatedToTabs := true);
    assert Step(Initial, es[0]) == s1;
    assert Step(s1, es[1]) == s2;
    assert ValidationErrors(s2.email, s2.password) == NoErrors;
    assert Step(s2, es[2]) == s3;
    assert Step(s3, es[3]) == s4;
    assert Run(s3, es[3..]) == s4 by {
      assert es[3..][1..] == [];
    }
    assert es[2..][1..] == es[3..];
    assert es[1..][1..] == es[2..];
    assert Run(s2, es[2..]) == s4;
    assert Run(s1, es[1..]) == s4;
  }
}
