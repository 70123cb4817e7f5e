/** The reset-password form of src/components/dashboard/Auth/ResetPassword.tsx:
    its schema, the payload it sends, and the submit / settle steps of its
    reset request (the request itself is an abstract outcome). */
module ResetPasswordForm {
  import opened Wrappers
  import opened Text
  import opened Validation

  datatype PasswordField = NewPassword | ConfirmPassword

  datatype PasswordValues = PasswordValues(newPassword: string, confirmPassword: string)

  const TooShort: string := "Password must be at least 6 characters"
  const ConfirmRequired: string := "Please confirm your password"
  const Mismatch: string := "Passwords do not match"
  const EmailRequired: string := "Email is required"
  const ResetSucceeded: string := "Password reset successfully!"
  const ResetFailedFallback: string := "Failed to reset password"
  const LoginPath: string := "/login"

  const DefaultValues: PasswordValues := PasswordValues("", "")

  /** The issues `resetPasswordSchema` reports: the two field checks, then the
      equality refinement, which reports against `confirmPassword`. */
  function Issues(v: PasswordValues): (r: seq<Issue<PasswordField>>)
    ensures r == [] <==>
      Utf16Length(v.newPassword) >= 6 && Utf16Length(v.confirmPassword) >= 1 &&
      v.newPassword == v.confirmPassword
    ensures v.newPassword != v.confirmPassword ==> r[|r| - 1] == Issue(ConfirmPassword, Mismatch)
  {
    MinLength(NewPassword, v.newPassword, 6, TooShort)
    + MinLength(ConfirmPassword, v.confirmPassword, 1, ConfirmRequired)
    + Refinement(v.newPassword == v.confirmPassword, ConfirmPassword, Mismatch)
  }

  predicate Valid(v: PasswordValues) {
    Issues(v) == []
  }

  /** The form accepts exactly a new password of six or more UTF-16 code units
      (JavaScript's `length`), a non-empty confirmation, and the two equal. */
  lemma ValidIff(v: PasswordValues)
    ensures Valid(v) <==>
      Utf16Length(v.newPassword) >= 6 && Utf16Length(v.confirmPassword) >= 1 &&
      v.newPassword == v.confirmPassword
  {
  }

  /** A mismatch is reported once, against the confirmation field. */
  lemma MismatchReportedOnConfirm(v: PasswordValues)
    requires v.newPassword != v.confirmPassword
    ensures Issue(ConfirmPassword, Mismatch) in Issues(v)
    ensures Issue(NewPassword, Mismatch) !in Issues(v)
  {
    assert Issues(v)[|Issues(v)| - 1] == Issue(ConfirmPassword, Mismatch);
  }

  /** The empty defaults are rejected. */
  lemma DefaultsInvalid()
    ensures !Valid(DefaultValues)
  {
    assert Issues(DefaultValues)[0] == Issue(NewPassword, TooShort);
  }

  /** The body of the reset request. */
  datatype ResetPayload = ResetPayload(email: string, newPassword: string, repeatNewPassword: string)

  /** `{ email, newPassword, repeatNewPassword: confirmPassword }`. */
  function Payload(email: string, v: PasswordValues): (p: ResetPayload)
    ensures p.email == email && p.newPassword == v.newPassword
    ensures p.repeatNewPassword == v.confirmPassword
  {
    ResetPayload(email, v.newPassword, v.confirmPassword)
  }

  /** For validated values the payload repeats the new password exactly, and both
      copies are at least six code units long. */
  lemma ValidPayloadRepeats(email: string, v: PasswordValues)
    requires Valid(v)
    ensures Payload(email, v).repeatNewPassword == Payload(email, v).newPassword
    ensures Utf16Length(Payload(email, v).repeatNewPassword) >= 6
  {
    ValidIff(v);
  }

  /** `!email`: the query parameter is absent or empty. */
  predicate EmailMissing(email: Option<string>) {
    email.None? || email.value == ""
  }

  datatype Toast = SuccessToast(message: string) | ErrorToast(message: string)

  /** How the reset request ended; an empty message is possible. */
  datatype MutationOutcome = Succeeded | FailedWith(message: string)

  /** `error.message || "Failed to reset password"`. */
  function FailureMessage(message: string): (m: string)
    ensures m != ""
    ensures message != "" ==> m == message
  {
    if message == "" then ResetFailedFallback else message
  }

  /** The page: the toasts shown, the requests sent, the route, and whether a
      request is pending. */
  class Screen {
    var toasts: seq<Toast>
    var requests: seq<ResetPayload>
    var location: string
    var pending: bool

    constructor (location: string)
      ensures toasts == [] && requests == [] && this.location == location && !pending
    {
      toasts, requests, this.location, pending := [], [], location, false;
    }

    /** The submit button is disabled while a request is pending. */
    function SubmitDisabled(): bool
      reads this
    {
      pending
    }

    /** `onSubmit`, called by the form only with validated values: without an
        email it shows an error and sends nothing; otherwise it sends the payload
        and the request becomes pending. */
    method OnSubmit(email: Option<string>, values: PasswordValues)
      requires Valid(values)
      modifies this
      ensures location == old(location)
      ensures EmailMissing(email) ==>
        && toasts == old(toasts) + [ErrorToast(EmailRequired)]
        && requests == old(requests) && pending == old(pending)
      ensures !EmailMissing(email) ==>
        && requests == old(requests) + [Payload(email.value, values)]
        && requests[|requests| - 1].repeatNewPassword == requests[|requests| - 1].newPassword
        && pending && SubmitDisabled() && toasts == old(toasts)
    {
      if EmailMissing(email) {
        toasts := toasts + [ErrorToast(EmailRequired)];
        return;
      }
      ValidPayloadRepeats(email.value, values);
      requests := requests + [Payload(email.value, values)];
      pending := true;
    }

    /** The request's `onSuccess` / `onError` callbacks: a success toast and a move
        to the login page, or an error toast; either way it is no longer pending. */
    method OnSettled(outcome: MutationOutcome)
      requires pending
      modifies this
      ensures !pending && !SubmitDisabled() && requests == old(requests)
      ensures outcome.Succeeded? ==>
        toasts == old(toasts) + [SuccessToast(ResetSucceeded)] && location == LoginPath
      ensures outcome.FailedWith? ==>
        toasts == old(toasts) + [ErrorToast(FailureMessage(outcome.message))] &&
        location == old(location)
    {
      match outcome {
        case Succeeded =>
          toasts := toasts + [SuccessToast(ResetSucceeded)];
          location := LoginPath;
        case FailedWith(message) =>
          toasts := toasts + [ErrorToast(FailureMessage(message))];
      }
      pending := false;
    }
  }
}
