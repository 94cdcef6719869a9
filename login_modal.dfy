/** The sign-in dialog: an email step that asks the authentication
    provider to send a one-time code, a code step that logs in with it,
    and a wallet login offered beside the email form. The provider is
    outside the model; each handler takes whether the provider's promise
    resolved. */
module LoginModalComponent {

  const EmailMissingMessage: string := "Please enter your email address"
  const SendFailedMessage: string := "Failed to send code. Please try again."
  const CodeMissingMessage: string := "Please enter the verification code"
  const CodeRejectedMessage: string := "Invalid code. Please try again."
  const WalletFailedMessage: string := "Failed to connect wallet. Please try again."

  /** Which form the dialog shows. */
  datatype Step = EmailStep | CodeStep

  /** A request to the authentication provider. */
  datatype AuthCall = SendCode(email: string) | LoginWithCode(code: string) | WalletLogin

  /** One provider request: what was asked, the dialog's loading flag and
      error text while it was pending, and whether it resolved. */
  datatype AuthAttempt = AuthAttempt(call: AuthCall, isLoading: bool, error: string, resolved: bool)

  /** Some code was sent successfully. */
  ghost predicate CodeSent(attempts: seq<AuthAttempt>) {
    exists i :: 0 <= i < |attempts| && attempts[i].call.SendCode? && attempts[i].resolved
  }

  /** Appending a request keeps an earlier successful send, and a
      successful send is one. */
  lemma CodeSentAppend(attempts: seq<AuthAttempt>, a: AuthAttempt)
    ensures CodeSent(attempts + [a]) <==> CodeSent(attempts) || (a.call.SendCode? && a.resolved)
  {
    var all := attempts + [a];
    if CodeSent(attempts) {
      var i :| 0 <= i < |attempts| && attempts[i].call.SendCode? && attempts[i].resolved;
      assert all[i] == attempts[i];
    }
    if a.call.SendCode? && a.resolved {
      assert all[|attempts|] == a;
    }
    if CodeSent(all) {
      var i :| 0 <= i < |all| && all[i].call.SendCode? && all[i].resolved;
      if i < |attempts| {
        assert attempts[i] == all[i];
      }
    }
  }

  /** The text a request was made with was not empty. */
  predicate NonEmptyRequest(a: AuthAttempt) {
    match a.call
    case SendCode(email) => email != ""
    case LoginWithCode(code) => code != ""
    case WalletLogin => true
  }

  class LoginModal {
    var email: string
    var code: string
    var step: Step
    var isLoading: bool
    var error: string
    /** Every request made to the provider, in order. */
    ghost var attempts: seq<AuthAttempt>

    /** Between handlers nothing is loading; the code form is shown only
        after a code was sent; and no request was made with an empty
        email or code. */
    ghost predicate Valid()
      reads this
    {
      && !isLoading
      && (step == CodeStep ==> CodeSent(attempts))
      && (forall i :: 0 <= i < |attempts| ==> NonEmptyRequest(attempts[i]))
    }

    constructor ()
      ensures Valid()
      ensures email == "" && code == "" && step == EmailStep && error == "" && attempts == []
    {
      email := "";
      code := "";
      step := EmailStep;
      isLoading := false;
      error := "";
      attempts := [];
    }

    /** The email field's `onChange`. */
    method SetEmail(value: string)
      requires Valid()
      modifies this`email
      ensures Valid() && email == value
    {
      email := value;
    }

    /** The code field's `onChange`. */
    method SetCode(value: string)
      requires Valid()
      modifies this`code
      ensures Valid() && code == value
    {
      code := value;
    }

    /** `handleSendCode`: an empty email is refused without a request;
        otherwise the code form follows a successful send, and a failed
        send leaves the step as it was and shows the retry message. */
    method HandleSendCode(resolved: bool)
      requires Valid()
      modifies this`isLoading, this`error, this`step, this`attempts
      ensures Valid()
      ensures email == "" ==>
                error == EmailMissingMessage && step == old(step) && attempts == old(attempts)
      ensures email != "" ==>
                && attempts == old(attempts) + [AuthAttempt(SendCode(email), true, "", resolved)]
                && (resolved ==> step == CodeStep && error == "")
                && (!resolved ==> step == old(step) && error == SendFailedMessage)
    {
      if email == "" {
        error := EmailMissingMessage;
        return;
      }
      isLoading := true;
      error := "";
      attempts := attempts + [AuthAttempt(SendCode(email), isLoading, error, resolved)];
      if resolved {
        step := CodeStep;
      } else {
        error := SendFailedMessage;
      }
      isLoading := false;
      CodeSentAppend(old(attempts), attempts[|attempts| - 1]);
    }

    /** `handleLoginWithCode`: an empty code is refused without a
        request; otherwise the error is cleared, and set again when the
        provider rejects the code. The step does not change either way. */
    method HandleLoginWithCode(resolved: bool)
      requires Valid()
      modifies this`isLoading, this`error, this`attempts
      ensures Valid()
      ensures code == "" ==> error == CodeMissingMessage && attempts == old(attempts)
      ensures code != "" ==>
                && attempts == old(attempts) + [AuthAttempt(LoginWithCode(code), true, "", resolved)]
                && error == (if resolved then "" else CodeRejectedMessage)
    {
      if code == "" {
        error := CodeMissingMessage;
        return;
      }
      isLoading := true;
      error := "";
      attempts := attempts + [AuthAttempt(LoginWithCode(code), isLoading, error, resolved)];
      if !resolved {
        error := CodeRejectedMessage;
      }
      isLoading := false;
      CodeSentAppend(old(attempts), attempts[|attempts| - 1]);
    }

    /** `handleWalletLogin`: always a request, with no input to check. */
    method HandleWalletLogin(resolved: bool)
      requires Valid()
      modifies this`isLoading, this`error, this`attempts
      ensures Valid()
      ensures attempts == old(attempts) + [AuthAttempt(WalletLogin, true, "", resolved)]
      ensures error == (if resolved then "" else WalletFailedMessage)
    {
      isLoading := true;
      error := "";
      attempts := attempts + [AuthAttempt(WalletLogin, isLoading, error, resolved)];
      if !resolved {
        error := WalletFailedMessage;
      }
      isLoading := false;
      CodeSentAppend(old(attempts), attempts[|attempts| - 1]);
    }

    /** The "Back to Email" button: the email form again, with the typed
        email and code and any error message kept. */
    method BackToEmail()
      requires Valid()
      modifies this`step
      ensures Valid() && step == EmailStep
    {
      step := EmailStep;
    }
  }
}
