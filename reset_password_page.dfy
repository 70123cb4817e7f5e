/** The stand-alone reset-password page (src/app/auth/reset-password/page.tsx):
    the same two fields as the dashboard form, but with a six-character minimum
    on the confirmation too. */
module ResetPasswordPage {
  import opened Text
  import opened Validation
  import opened ResetPasswordForm

  /** The issues `loginSchema` reports. */
  function PageIssues(v: PasswordValues): (r: seq<Issue<PasswordField>>)
    ensures r == [] <==>
      Utf16Length(v.newPassword) >= 6 && Utf16Length(v.confirmPassword) >= 6 &&
      v.newPassword == v.confirmPassword
    ensures v.newPassword != v.confirmPassword ==> r[|r| - 1] == Issue(ConfirmPassword, Mismatch)
  {
    MinLength(NewPassword, v.newPassword, 6, TooShort)
    + MinLength(ConfirmPassword, v.confirmPassword, 6, TooShort)
    + Refinement(v.newPassword == v.confirmPassword, ConfirmPassword, Mismatch)
  }

  predicate PageValid(v: PasswordValues) {
    PageIssues(v) == []
  }

  /** The page accepts exactly two equal passwords of six or more UTF-16 code units. */
  lemma PageValidIff(v: PasswordValues)
    ensures PageValid(v) <==>
      Utf16Length(v.newPassword) >= 6 && Utf16Length(v.confirmPassword) >= 6 &&
      v.newPassword == v.confirmPassword
  {
  }

  /** A mismatch is reported against the confirmation field. */
  lemma PageMismatchReportedOnConfirm(v: PasswordValues)
    requires v.newPassword != v.confirmPassword
    ensures Issue(ConfirmPassword, Mismatch) in PageIssues(v)
    ensures Issue(NewPassword, Mismatch) !in PageIssues(v)
  {
    assert PageIssues(v)[|PageIssues(v)| - 1] == Issue(ConfirmPassword, Mismatch);
  }

  /** The empty defaults are rejected. */
  lemma PageDefaultsInvalid()
    ensures !PageValid(DefaultValues)
  {
    assert PageIssues(DefaultValues)[0] == Issue(NewPassword, TooShort);
  }

  /** The two schemas accept the same values (equality makes the confirmation as
      long as the new password), though a short confirmation is reported with a
      different message. */
  lemma SchemasAcceptTheSame(v: PasswordValues)
    ensures PageValid(v) <==> ResetPasswordForm.Valid(v)
    ensures |v.confirmPassword| == 0 ==>
      Issue(ConfirmPassword, TooShort) in PageIssues(v) &&
      Issue(ConfirmPassword, ConfirmRequired) in ResetPasswordForm.Issues(v)
  {
    PageValidIff(v);
    ResetPasswordForm.ValidIff(v);
    if |v.confirmPassword| == 0 {
      var a := MinLength(NewPassword, v.newPassword, 6, TooShort);
      assert PageIssues(v)[|a|] == Issue(ConfirmPassword, TooShort);
      assert ResetPasswordForm.Issues(v)[|a|] == Issue(ConfirmPassword, ConfirmRequired);
    }
  }
}
