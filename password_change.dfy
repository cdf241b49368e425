/**
 * The password change dialog of src/components/school-admin/PasswordChangeModal.tsx: the
 * form's validation rules (the zod schema, with the first failing rule's message shown
 * under each field), the live checklist under the new password, and the dialog's loading,
 * error and success flags around the call that changes the password. The call's outcome
 * and the two-second timer's expiry are events supplied by the caller.
 */
module PasswordChange {
  import opened Wrappers
  import opened Strings

  datatype PasswordForm = PasswordForm(currentPassword: string, newPassword: string, confirmPassword: string)

  function EmptyForm(): PasswordForm
  {
    PasswordForm("", "", "")
  }

  // ---------------------------------------------------------------- the rules

  predicate HasUpper(s: string) { exists i :: 0 <= i < |s| && IsUpper(s[i]) }
  predicate HasLower(s: string) { exists i :: 0 <= i < |s| && IsLower(s[i]) }
  predicate HasDigit(s: string) { exists i :: 0 <= i < |s| && IsDigit(s[i]) }

  /** The new password's four rules: `min(8)` and the three `regex` tests. */
  predicate Strong(p: string)
  {
    |p| >= 8 && HasUpper(p) && HasLower(p) && HasDigit(p)
  }

  /** The message shown under the new password: its first broken rule, in the schema's order. */
  function NewPasswordError(p: string): (r: Option<string>)
    ensures r.None? <==> Strong(p)
  {
    if |p| < 8 then Some("Password must be at least 8 characters")
    else if !HasUpper(p) then Some("Password must contain at least one uppercase letter")
    else if !HasLower(p) then Some("Password must contain at least one lowercase letter")
    else if !HasDigit(p) then Some("Password must contain at least one number")
    else None
  }

  /** The message under each field, if any. */
  datatype FieldErrors = FieldErrors(currentPassword: Option<string>, newPassword: Option<string>, confirmPassword: Option<string>)

  /**
   * The schema: each field's own rules, and the `refine` that compares the two new
   * passwords, whose message goes under the confirmation. An empty confirmation reports
   * its own rule first.
   */
  function Validate(form: PasswordForm): (r: FieldErrors)
    ensures r.currentPassword.None? <==> form.currentPassword != ""
    ensures r.newPassword == NewPasswordError(form.newPassword)
    ensures r.confirmPassword.None? <==> form.confirmPassword != "" && form.confirmPassword == form.newPassword
  {
    FieldErrors(
      if form.currentPassword == "" then Some("Current password is required") else None,
      NewPasswordError(form.newPassword),
      if form.confirmPassword == "" then Some("Please confirm your password")
      else if form.newPassword != form.confirmPassword then Some("Passwords don't match")
      else None)
  }

  /** `handleSubmit` calls `onSubmit` only when no field has a message. */
  predicate Submittable(form: PasswordForm)
  {
    Validate(form) == FieldErrors(None, None, None)
  }

  /** A form is sent exactly when the current password is given, the new one is strong, and both copies agree. */
  lemma SubmittableRule(form: PasswordForm)
    ensures Submittable(form) <==>
      form.currentPassword != "" && Strong(form.newPassword) && form.confirmPassword == form.newPassword
  {
  }

  /** Two different new passwords are reported under the confirmation, and never under the new password for that reason. */
  lemma MismatchOnConfirm(form: PasswordForm)
    requires form.confirmPassword != "" && form.confirmPassword != form.newPassword
    ensures Validate(form).confirmPassword == Some("Passwords don't match")
    ensures Validate(form).newPassword.None? <==> Strong(form.newPassword)
  {
  }

  /** Adding characters never breaks a strong password. */
  lemma {:induction false} StrongExtend(p: string, q: string)
    requires Strong(p)
    ensures Strong(p + q)
  {
    var u :| 0 <= u < |p| && IsUpper(p[u]);
    var l :| 0 <= l < |p| && IsLower(p[l]);
    var d :| 0 <= d < |p| && IsDigit(p[d]);
    assert (p + q)[u] == p[u] && (p + q)[l] == p[l] && (p + q)[d] == p[d];
  }

  // ---------------------------------------------------------------- the checklist

  /** The four lines under the new password, green when met; shown only once something is typed. */
  function Checklist(newPassword: string): (r: Option<seq<bool>>)
    ensures r.Some? <==> newPassword != ""
    ensures r.Some? ==> |r.value| == 4
  {
    if newPassword == "" then None
    else Some([|newPassword| >= 8, HasUpper(newPassword), HasLower(newPassword), HasDigit(newPassword)])
  }

  /** The checklist is all green exactly when the schema has nothing to say about the new password. */
  lemma ChecklistMatchesSchema(newPassword: string)
    requires newPassword != ""
    ensures (forall k :: 0 <= k < 4 ==> Checklist(newPassword).value[k]) <==> NewPasswordError(newPassword).None?
  {
    var c := Checklist(newPassword).value;
    if forall k :: 0 <= k < 4 ==> c[k] {
      assert c[0] && c[1] && c[2] && c[3];
    }
  }

  // ---------------------------------------------------------------- the dialog

  datatype DialogState = DialogState(form: PasswordForm, isLoading: bool, error: Option<string>, success: bool, open: bool)

  /** The answer of `changePassword`: success, an error with its message, or a thrown exception. */
  datatype Outcome = Changed | Refused(message: string) | Threw

  /** `onSubmit` before the call returns. */
  function SubmitStarted(s: DialogState): (r: DialogState)
    ensures r.isLoading && r.error.None? && !r.success
    ensures r.form == s.form && r.open == s.open
  {
    s.(isLoading := true, error := None, success := false)
  }

  /** `onSubmit` after the call: success clears the form; an error shows its message (or a fallback). */
  function SubmitFinished(s: DialogState, outcome: Outcome): (r: DialogState)
    ensures !r.isLoading && r.open == s.open
    ensures r.success == (outcome.Changed? || s.success)
    ensures outcome.Changed? ==> r.form == EmptyForm() && r.error == s.error
    ensures outcome.Refused? && outcome.message != "" ==> r.error == Some(outcome.message) && r.form == s.form
    ensures outcome.Refused? && outcome.message == "" ==> r.error == Some("Failed to change password") && r.form == s.form
    ensures outcome.Threw? ==> r.error == Some("An unexpected error occurred") && r.form == s.form
  {
    match outcome
    case Changed => s.(success := true, form := EmptyForm(), isLoading := false)
    case Refused(message) => s.(error := Some(if message != "" then message else "Failed to change password"), isLoading := false)
    case Threw => s.(error := Some("An unexpected error occurred"), isLoading := false)
  }

  /** The two-second timer set on success: the dialog closes and the success banner goes. */
  function TimerFired(s: DialogState): (r: DialogState)
    ensures !r.open && !r.success
    ensures r.form == s.form && r.error == s.error && r.isLoading == s.isLoading
  {
    s.(open := false, success := false)
  }

  /** `handleClose`: ignored while the call is in flight; otherwise the form and the messages are cleared and the dialog closes. */
  function HandleClose(s: DialogState): (r: DialogState)
    ensures s.isLoading ==> r == s
    ensures !s.isLoading ==> !r.open && r.form == EmptyForm() && r.error.None? && !r.success && !r.isLoading
  {
    if s.isLoading then s else s.(form := EmptyForm(), error := None, success := false, open := false)
  }

  /** A successful change, once the timer fires, leaves the dialog closed, idle and empty. */
  lemma SuccessThenClosed(s: DialogState)
    ensures TimerFired(SubmitFinished(SubmitStarted(s), Changed)) ==
      DialogState(EmptyForm(), false, None, false, false)
  {
  }

  /** Closing while the call is in flight changes nothing, so the outcome still lands on an open dialog. */
  lemma CloseDuringSubmitIgnored(s: DialogState, outcome: Outcome)
    requires s.open
    ensures HandleClose(SubmitStarted(s)) == SubmitStarted(s)
    ensures SubmitFinished(HandleClose(SubmitStarted(s)), outcome).open
  {
  }
}
