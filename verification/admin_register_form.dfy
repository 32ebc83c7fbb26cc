/** The admin sign-up form: name, e-mail, password rule and confirmation
    are checked in that order, and only a form passing all four is sent. */
module AdminRegisterForm {
  import opened Common
  import opened Models
  import opened Validation
  import AuthRoutes

  datatype Form = Form(name: string, email: string, password: string, confirmPassword: string, secretKey: string)

  const RuleError := "Password must be at least 8 characters long and include an uppercase letter, a number, and a special character"

  /** The error shown instead of sending, if any. */
  function Check(f: Form): (r: Option<string>)
    ensures !NameOk(f.name) ==> r == Some("Full Name must contain only alphabets")
    ensures NameOk(f.name) && !AdminEmailOk(f.email) ==> r == Some("Please enter a valid email address")
    ensures NameOk(f.name) && AdminEmailOk(f.email) && !PasswordOk(f.password) ==> r == Some(RuleError)
    ensures NameOk(f.name) && AdminEmailOk(f.email) && PasswordOk(f.password) && f.password != f.confirmPassword
            ==> r == Some("Passwords do not match")
    ensures r.None? <==> NameOk(f.name) && AdminEmailOk(f.email) && PasswordOk(f.password) && f.password == f.confirmPassword
  {
    if !NameOk(f.name) then Some("Full Name must contain only alphabets")
    else if !AdminEmailOk(f.email) then Some("Please enter a valid email address")
    else if !PasswordOk(f.password) then Some(RuleError)
    else if f.password != f.confirmPassword then Some("Passwords do not match")
    else None
  }

  /** The body the form posts. */
  function Request(f: Form): AuthRoutes.AdminRegisterRequest {
    AuthRoutes.AdminRegisterRequest(Some(f.name), Some(f.email), Some(f.password), Some(f.secretKey))
  }

  /** A form that passes the client's checks is never refused by the
      server for a missing field: only the secret key, a taken e-mail or a
      storage error can stop it. */
  lemma ClientChecksSuffice(users: seq<User>, f: Form, masterKey: string, hash: string, id: UserId, now: nat)
    requires Check(f).None?
    ensures var reply := AuthRoutes.AdminRegisterRoute(users, Request(f), masterKey, hash, id, now).0;
      || reply.Done?
      || reply == Fail(403, "Invalid Admin Secret Key")
      || reply == Fail(400, "Email already exists")
      || (reply.Fail? && reply.status == 500)
  {
    assert AdminEmailOk(f.email);
    assert |f.email| > 0;
  }
}
