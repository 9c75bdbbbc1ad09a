/**
  The sign-up page (src/app/register/page.tsx): the four-field form record, its change handler,
  the two password checks made before any sign-up and the messages of the sign-up errors. The
  sign-up call itself is not modelled: a submission says which call it makes, and the error code
  the call fails with is a parameter.
*/
module Register {
  import opened Wrappers

  datatype RegisterForm = RegisterForm(displayName: string, email: string, password: string, confirmPassword: string)

  /** The ids of the four inputs, which `handleChange` uses as the key to set. */
  datatype FieldId = DisplayName | Email | Password | ConfirmPassword

  function FieldOf(form: RegisterForm, id: FieldId): string {
    match id
    case DisplayName => form.displayName
    case Email => form.email
    case Password => form.password
    case ConfirmPassword => form.confirmPassword
  }

  /** `{...formData, [id]: value}`. */
  function WithField(form: RegisterForm, id: FieldId, value: string): RegisterForm {
    match id
    case DisplayName => form.(displayName := value)
    case Email => form.(email := value)
    case Password => form.(password := value)
    case ConfirmPassword => form.(confirmPassword := value)
  }

  /**
    Setting a field changes that field to the new value and no other; setting it to what it
    holds changes nothing, and the later of two settings of one field wins.
  */
  lemma {:induction false} WithFieldExact(form: RegisterForm, id: FieldId, other: FieldId, value: string, later: string)
    ensures FieldOf(WithField(form, id, value), id) == value
    ensures other != id ==> FieldOf(WithField(form, id, value), other) == FieldOf(form, other)
    ensures WithField(form, id, FieldOf(form, id)) == form
    ensures WithField(WithField(form, id, value), id, later) == WithField(form, id, later)
  {
  }

  /** Two forms with the same four fields are the same form. */
  lemma {:induction false} FormExtensional(a: RegisterForm, b: RegisterForm)
    requires forall id :: FieldOf(a, id) == FieldOf(b, id)
    ensures a == b
  {
    assert FieldOf(a, DisplayName) == FieldOf(b, DisplayName);
    assert FieldOf(a, Email) == FieldOf(b, Email);
    assert FieldOf(a, Password) == FieldOf(b, Password);
    assert FieldOf(a, ConfirmPassword) == FieldOf(b, ConfirmPassword);
  }

  const MismatchError := "Mật khẩu xác nhận không khớp"
  const TooShortError := "Mật khẩu phải có ít nhất 6 ký tự"
  const EmailInUseError := "Email đã được sử dụng"
  const InvalidEmailError := "Email không hợp lệ"
  const GenericError := "Đã xảy ra lỗi. Vui lòng thử lại"

  /** The password checks of `handleSubmit`, in order: the error of the first that fails, if any. */
  function PasswordCheck(form: RegisterForm): Option<string> {
    if form.password != form.confirmPassword then Some(MismatchError)
    else if |form.password| < 6 then Some(TooShortError)
    else None
  }

  /**
    A mismatch is reported whatever the length; a matching password is refused exactly when it
    is shorter than 6 characters; the password checks pass exactly when both hold.
  */
  lemma {:induction false} PasswordCheckExact(form: RegisterForm)
    ensures form.password != form.confirmPassword ==> PasswordCheck(form) == Some(MismatchError)
    ensures form.password == form.confirmPassword ==>
              (PasswordCheck(form) == Some(TooShortError) <==> |form.password| < 6)
    ensures PasswordCheck(form).None? <==> form.password == form.confirmPassword && |form.password| >= 6
    ensures PasswordCheck(form) != Some(TooShortError) || form.password == form.confirmPassword
  {
  }

  /** The message shown for the error code of a failed sign-up. */
  function ErrorMessage(code: string): string {
    if code == "auth/email-already-in-use" then EmailInUseError
    else if code == "auth/invalid-email" then InvalidEmailError
    else GenericError
  }

  /** The two known codes get their own messages; every other code gets the generic one. */
  lemma {:induction false} ErrorMessageExact(code: string)
    ensures ErrorMessage(code) == EmailInUseError <==> code == "auth/email-already-in-use"
    ensures ErrorMessage(code) == InvalidEmailError <==> code == "auth/invalid-email"
    ensures ErrorMessage(code) == GenericError <==>
              code != "auth/email-already-in-use" && code != "auth/invalid-email"
    ensures ErrorMessage(code) != "" && ErrorMessage(code) != MismatchError && ErrorMessage(code) != TooShortError
  {
  }

  /** The error left on the page by a submission, given the code the sign-up fails with, if it does. */
  function SubmitError(form: RegisterForm, signUpError: Option<string>): string {
    match PasswordCheck(form)
    case Some(e) => e
    case None =>
      match signUpError
      case None => ""
      case Some(code) => ErrorMessage(code)
  }

  /**
    A submission leaves the page without an error banner exactly when both checks pass and the
    sign-up succeeds; a failed check shows its own message, whatever the sign-up would have done.
  */
  lemma {:induction false} SubmitErrorExact(form: RegisterForm, signUpError: Option<string>)
    ensures SubmitError(form, signUpError) == "" <==> PasswordCheck(form).None? && signUpError.None?
    ensures PasswordCheck(form).Some? ==> SubmitError(form, signUpError) == PasswordCheck(form).value
    ensures PasswordCheck(form).None? && signUpError.Some? ==>
              SubmitError(form, signUpError) == ErrorMessage(signUpError.value)
  {
    if PasswordCheck(form).None? && signUpError.Some? {
      ErrorMessageExact(signUpError.value);
    }
  }

  /** The page's state: the form, the error banner and the loading flag. */
  class RegisterPage {
    var form: RegisterForm
    var error: string
    var loading: bool

    constructor()
      ensures form == RegisterForm("", "", "", "") && error == "" && !loading
    {
      form := RegisterForm("", "", "", "");
      error := "";
      loading := false;
    }

    /** `handleChange` of the input `id`: only that field of the form changes. */
    method HandleChange(id: FieldId, value: string)
      modifies this
      ensures form == WithField(old(form), id, value)
      ensures error == old(error) && loading == old(loading)
    {
      form := WithField(form, id, value);
    }

    /**
      `handleSubmit`. The banner is cleared first; a failed check sets its message and calls
      nothing; otherwise `signUp(email, password, displayName)` is called with the flag up, and the
      flag is down when the attempt ends, whether it succeeds or fails.
    */
    method HandleSubmit(signUpError: Option<string>) returns (call: Option<(string, string, string)>, loadingDuringCall: bool)
      modifies this
      ensures form == old(form) && error == SubmitError(form, signUpError)
      ensures call.Some? <==> PasswordCheck(form).None?
      ensures call.Some? ==> call.value == (form.email, form.password, form.displayName) && loadingDuringCall && !loading
      ensures call.None? ==> loading == old(loading)
    {
      error := "";
      call := None;
      loadingDuringCall := false;
      if form.password != form.confirmPassword {
        error := MismatchError;
        return;
      }
      if |form.password| < 6 {
        error := TooShortError;
        return;
      }
      loading := true;
      call := Some((form.email, form.password, form.displayName));
      loadingDuringCall := loading;
      match signUpError {
        case None =>
        case Some(code) =>
          error := ErrorMessage(code);
      }
      loading := false;
    }
  }
}
