/**
 * Submitting the new-password form: the two checks that run before the
 * password is sent to the auth service, and the messages and loading flag
 * the form is left with.
 *
 * What the auth service answers is the `answer` parameter; it is only
 * consulted when the form actually calls it.
 */
module ResetPassword {
  import opened Wrappers

  const MinLength: nat := 6

  const TooShort: string := "A senha deve ter pelo menos 6 caracteres"
  const Mismatch: string := "As senhas não coincidem"
  const UpdateFailed: string := "Erro ao redefinir senha. Tente novamente."
  const Updated: string := "✅ Senha redefinida com sucesso!\n\nVocê será redirecionado para o login..."

  /** What `updateUser` answers: success, or an error with its message (possibly empty). */
  datatype Answer = Accepted | Refused(message: string)

  /** The form's state: its two messages and whether the button shows the spinner. */
  datatype Form = Form(errorMessage: string, successMessage: string, isLoading: bool)

  /**
   * The form after one submit, and the password handed to `updateUser` if it
   * was called.
   */
  datatype Submitted = Submitted(form: Form, updateCall: Option<string>)

  /**
   * `handleResetPassword`: both messages are cleared and the spinner set;
   * a password shorter than 6 characters, then a confirmation that differs,
   * stop the submit with their message; otherwise the new password is sent
   * and the answer decides the message. The spinner is off on every exit.
   */
  function HandleResetPassword(before: Form, newPassword: string, confirmPassword: string,
                               answer: Answer): (r: Submitted)
    ensures !r.form.isLoading
    ensures r.updateCall.Some? <==> |newPassword| >= MinLength && newPassword == confirmPassword
    ensures r.updateCall.Some? ==> r.updateCall.value == newPassword
    ensures |newPassword| < MinLength ==> r.form == Form(TooShort, "", false)
    ensures |newPassword| >= MinLength && newPassword != confirmPassword ==> r.form == Form(Mismatch, "", false)
    ensures r.updateCall.Some? && answer == Accepted ==> r.form == Form("", Updated, false)
    ensures r.updateCall.Some? && answer.Refused? ==>
      r.form == Form(if answer.message != "" then answer.message else UpdateFailed, "", false)
  {
    var form := before.(errorMessage := "", successMessage := "", isLoading := true);
    if |newPassword| < MinLength then
      Submitted(form.(errorMessage := TooShort, isLoading := false), None)
    else if newPassword != confirmPassword then
      Submitted(form.(errorMessage := Mismatch, isLoading := false), None)
    else
      var answered :=
        match answer
        case Accepted => form.(successMessage := Updated)
        case Refused(message) => form.(errorMessage := if message != "" then message else UpdateFailed);
      Submitted(answered.(isLoading := false), Some(newPassword))
  }

  /**
   * Every submit ends with exactly one of the two messages shown, whatever
   * the form showed before: the old messages never survive a submit.
   */
  lemma ExactlyOneMessage(before: Form, newPassword: string, confirmPassword: string, answer: Answer)
    ensures var f := HandleResetPassword(before, newPassword, confirmPassword, answer).form;
      (f.errorMessage == "") != (f.successMessage == "")
  {
  }

  /** The length check comes first: a short password reports its length even when the two differ. */
  lemma LengthCheckedFirst(newPassword: string, confirmPassword: string, before: Form, answer: Answer)
    requires |newPassword| < MinLength && newPassword != confirmPassword
    ensures HandleResetPassword(before, newPassword, confirmPassword, answer).form.errorMessage == TooShort
  {
  }

  /** The success message is shown only when the auth service accepted the very password typed twice. */
  lemma SuccessMeansAccepted(before: Form, newPassword: string, confirmPassword: string, answer: Answer)
    requires HandleResetPassword(before, newPassword, confirmPassword, answer).form.successMessage != ""
    ensures answer == Accepted && newPassword == confirmPassword && |newPassword| >= MinLength
    ensures HandleResetPassword(before, newPassword, confirmPassword, answer).updateCall == Some(newPassword)
  {
  }
}
