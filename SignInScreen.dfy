/** The email sign-in/sign-up screen as an object whose fields are the
    screen's state and whose methods are its event handlers. Each handler is
    proved to perform the matching transition of FormController. */
module SignInScreen {
  import opened Validation
  import opened FormController

  class EmailSignInScreen {
    var email: string
    var password: string
    var showPassword: bool
    var isSignUp: bool
    var isLoading: bool
    var errors: FieldErrors
    /** Completion timers scheduled by a successful submit and not yet fired. */
    var pendingTimers: nat
    /** Set when the completion has replaced the screen by the tabs area. */
    var navigatedToTabs: bool

    function State(): FormState
      reads this
    {
      FormState(email, password, showPassword, isSignUp, isLoading, errors,
                pendingTimers, navigatedToTabs)
    }

    constructor ()
      ensures State() == Initial
    {
      email, password := "", "";
      showPassword, isSignUp, isLoading := false, false, false;
      errors := NoErrors;
      pendingTimers, navigatedToTabs := 0, false;
    }

    /** `handleContinue`: builds the new error record field by field, stores
        it, and starts loading when it is empty. */
    method HandleContinue()
      modifies this
      ensures State() == Submit(old(State()))
    {
      var newErrors := NoErrors;
      if email == [] {
        newErrors := newErrors.(email := Some(EmailRequiredMessage));
      } else if !ValidateEmail(email) {
        newErrors := newErrors.(email := Some(InvalidEmailMessage));
      }
      if password == [] {
        newErrors := newErrors.(password := Some(PasswordRequiredMessage));
      } else if !ValidatePassword(password) {
        newErrors := newErrors.(password := Some(PasswordTooShortMessage));
      }
      errors := newErrors;
      if newErrors.IsEmpty() {
        isLoading := true;
        pendingTimers := pendingTimers + 1;
      }
    }

    /** The continue button: `disabled={isLoading}` keeps the press from
        reaching `handleContinue` while loading. */
    method PressContinue()
      modifies this
      ensures State() == FormController.PressContinue(old(State()))
      ensures old(isLoading) ==> State() == old(State())
    {
      if !isLoading {
        HandleContinue();
      }
    }

    /** `toggleAuthMode`. */
    method ToggleAuthMode()
      modifies this
      ensures State() == FormController.ToggleAuthMode(old(State()))
      ensures isSignUp == !old(isSignUp) && errors == NoErrors
    {
      isSignUp := !isSignUp;
      errors := NoErrors;
    }

    /** The email field's `onChangeText`. */
    method ChangeEmailText(text: string)
      modifies this
      ensures State() == EditEmail(old(State()), text)
      ensures email == text && errors.password == old(errors.password)
    {
      email := text;
      if IsShown(errors.email) {
        errors := errors.(email := None);
      }
    }

    /** The password field's `onChangeText`. */
    method ChangePasswordText(text: string)
      modifies this
      ensures State() == EditPassword(old(State()), text)
      ensures password == text && errors.email == old(errors.email)
    {
      password := text;
      if IsShown(errors.password) {
        errors := errors.(password := None);
      }
    }

    /** The eye button beside the password field. */
    method TogglePasswordVisibility()
      modifies this
      ensures State() == FormController.TogglePasswordVisibility(old(State()))
    {
      showPassword := !showPassword;
    }

    /** The completion timer scheduled by a successful submit fires. */
    method CompleteAuth()
      requires pendingTimers > 0
      modifies this
      ensures State() == FormController.CompleteAuth(old(State()))
      ensures !isLoading && navigatedToTabs
    {
      isLoading := false;
      navigatedToTabs := true;
      pendingTimers := pendingTimers - 1;
    }
  }

  /** A client session: both fields empty, then a valid sign-in. What the
      handlers' contracts alone let a caller conclude. */
  method SignInSession() returns (screen: EmailSignInScreen)
    ensures screen.navigatedToTabs && !screen.isLoading && screen.errors == NoErrors
  {
    screen := new EmailSignInScreen();
    screen.PressContinue();
    SampleValidationErrors();
    assert !screen.isLoading;
    assert screen.errors == FieldErrors(Some(EmailRequiredMessage), Some(PasswordRequiredMessage));
    screen.ChangeEmailText("a@b.com");
    assert screen.errors.email == None;
    screen.ChangePasswordText("123456");
    assert screen.errors == NoErrors;
    screen.PressContinue();
    assert screen.isLoading && screen.pendingTimers == 1;
    screen.PressContinue();
    assert screen.pendingTimers == 1;
    screen.CompleteAuth();
  }
}
