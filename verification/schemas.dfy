/**
 * The request-body schemas of the user service. Each field is a string
 * with a minimum and a maximum length; a body is accepted, and handed on
 * unchanged, exactly when every field is within its bounds. Lengths count
 * the characters of the string.
 */
module Schemas {
  import opened Wrappers
  import opened Errors

  /** `z.string().min(min).max(max)`. */
  datatype StringSchema = StringSchema(min: nat, max: nat) {
    predicate Accepts(s: string) {
      min <= |s| <= max
    }
  }

  const LOGIN: StringSchema := StringSchema(3, 30)
  const ROLE: StringSchema := StringSchema(1, 30)
  const PASSWORD: StringSchema := StringSchema(1, 50)
  /** `oldPassword` has no minimum: the empty string is accepted. */
  const OLD_PASSWORD: StringSchema := StringSchema(0, 50)
  const NEW_PASSWORD: StringSchema := StringSchema(3, 50)

  datatype CreateUserBody = CreateUserBody(login: string, role: string)
  datatype LoginBody = LoginBody(login: string, password: string)
  datatype ChangePasswordBody = ChangePasswordBody(oldPassword: string, newPassword: string, confirmPassword: string)

  function ParseCreateUser(b: CreateUserBody): (r: Result<CreateUserBody, Failure>)
    ensures r.Ok? <==> 3 <= |b.login| <= 30 && 1 <= |b.role| <= 30
    ensures r.Ok? ==> r.value == b
    ensures r.Err? ==> r.error == InvalidInput
  {
    if LOGIN.Accepts(b.login) && ROLE.Accepts(b.role) then Ok(b) else Err(InvalidInput)
  }

  function ParseLogin(b: LoginBody): (r: Result<LoginBody, Failure>)
    ensures r.Ok? <==> 3 <= |b.login| <= 30 && 1 <= |b.password| <= 50
    ensures r.Ok? ==> r.value == b
    ensures r.Err? ==> r.error == InvalidInput
  {
    if LOGIN.Accepts(b.login) && PASSWORD.Accepts(b.password) then Ok(b) else Err(InvalidInput)
  }

  /**
   * The change-password schema bounds each field on its own; it does not
   * ask the new password and its confirmation to be equal.
   */
  function ParseChangePassword(b: ChangePasswordBody): (r: Result<ChangePasswordBody, Failure>)
    ensures r.Ok? <==>
      |b.oldPassword| <= 50 && 3 <= |b.newPassword| <= 50 && 3 <= |b.confirmPassword| <= 50
    ensures r.Ok? ==> r.value == b
    ensures r.Err? ==> r.error == InvalidInput
  {
    if OLD_PASSWORD.Accepts(b.oldPassword) && NEW_PASSWORD.Accepts(b.newPassword)
       && NEW_PASSWORD.Accepts(b.confirmPassword)
    then Ok(b)
    else Err(InvalidInput)
  }

  /** A body whose new password and confirmation differ still passes the schema. */
  lemma MismatchPassesSchema()
    ensures exists b :: ParseChangePassword(b).Ok? && b.newPassword != b.confirmPassword
  {
    var b := ChangePasswordBody("", "abc", "abd");
    assert ParseChangePassword(b).Ok?;
  }
}
