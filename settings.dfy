/**
 * The password section of the settings page: three text fields and a loading flag. The
 * request to the server is returned as the pair it would send, and its outcome is a
 * parameter.
 */
module Settings {
  import opened Wrappers
  import opened Toasts

  const MismatchMessage := "New passwords do not match"
  const TooShortMessage := "New password must be at least 6 characters long"

  /**
   * The client-side checks on the new password: a mismatch is reported before a short
   * password, so two different short passwords are called a mismatch. The current
   * password is not looked at.
   */
  function PasswordProblem(newPassword: string, confirmPassword: string): (r: Option<string>)
    ensures r.None? <==> newPassword == confirmPassword && |newPassword| >= 6
    ensures newPassword != confirmPassword ==> r == Some(MismatchMessage)
    ensures newPassword == confirmPassword && |newPassword| < 6 ==> r == Some(TooShortMessage)
  {
    if newPassword != confirmPassword then Some(MismatchMessage)
    else if |newPassword| < 6 then Some(TooShortMessage)
    else None
  }

  class PasswordForm {
    var currentPassword: string
    var newPassword: string
    var confirmPassword: string
    var isLoading: bool

    constructor ()
      ensures currentPassword == "" && newPassword == "" && confirmPassword == "" && !isLoading
    {
      currentPassword, newPassword, confirmPassword, isLoading := "", "", "", false;
    }

    /** Typing into the three fields. */
    method Type(current: string, next: string, confirm: string)
      modifies this
      ensures currentPassword == current && newPassword == next && confirmPassword == confirm
      ensures isLoading == old(isLoading)
    {
      currentPassword, newPassword, confirmPassword := current, next, confirm;
    }

    /**
     * `handlePasswordChange`. A failed check raises its error toast and changes nothing.
     * Otherwise the update is requested with the current and new passwords; when it
     * succeeds the three fields are cleared, when it fails they are kept; either way the
     * page ends not loading.
     */
    method ChangePassword(updateSucceeds: bool) returns (request: Option<(string, string)>, toast: Toast)
      modifies this
      ensures var problem := PasswordProblem(old(newPassword), old(confirmPassword));
        && (request.Some? <==> problem.None?)
        && (problem.Some? ==> toast == ErrorToast(problem.value) && isLoading == old(isLoading))
      ensures request.Some? ==> request.value == (old(currentPassword), old(newPassword)) && !isLoading
      ensures request.Some? && updateSucceeds ==>
        currentPassword == "" && newPassword == "" && confirmPassword == ""
        && toast == SuccessToast("Password updated successfully")
      ensures request.None? || !updateSucceeds ==>
        currentPassword == old(currentPassword) && newPassword == old(newPassword)
        && confirmPassword == old(confirmPassword)
      ensures request.Some? && !updateSucceeds ==> toast == ErrorToast("Failed to update password")
    {
      var problem := PasswordProblem(newPassword, confirmPassword);
      if problem.Some? {
        return None, ErrorToast(problem.value);
      }
      isLoading := true;
      request := Some((currentPassword, newPassword));
      if updateSucceeds {
        toast := SuccessToast("Password updated successfully");
        currentPassword := "";
        newPassword := "";
        confirmPassword := "";
      } else {
        toast := ErrorToast("Failed to update password");
      }
      isLoading := false;
    }
  }
}
