/** The self-registration form: the client runs the same three format
    checks as the server, in the same order, and clears the form once the
    server accepts the request. */
module RegisterForm {
  import opened Common
  import opened Models
  import opened Validation
  import AuthRoutes

  datatype Form = Form(name: string, email: string, mobile: string)

  /** The form's fields with the banner texts above them. */
  datatype FormState = FormState(form: Form, msg: string, error: string)

  const EmptyForm := Form("", "", "")

  /** The error shown instead of sending, if any: name, then mobile, then e-mail. */
  function Check(f: Form): (r: Option<string>)
    ensures !NameOk(f.name) ==> r == Some("Name must contain only alphabets and spaces.")
    ensures NameOk(f.name) && !MobileOk(f.mobile) ==> r == Some("Mobile number must be exactly 10 digits.")
    ensures NameOk(f.name) && MobileOk(f.mobile) && !RegisterEmailOk(f.email) ==> r == Some(AuthRoutes.EmailError)
    ensures r.None? <==> NameOk(f.name) && MobileOk(f.mobile) && RegisterEmailOk(f.email)
  {
    if !NameOk(f.name) then Some("Name must contain only alphabets and spaces.")
    else if !MobileOk(f.mobile) then Some("Mobile number must be exactly 10 digits.")
    else if !RegisterEmailOk(f.email) then Some(AuthRoutes.EmailError)
    else None
  }

  /** The body the form posts. */
  function Request(f: Form): AuthRoutes.RegisterRequest {
    AuthRoutes.RegisterRequest(Some(f.name), Some(f.email), Some(f.mobile), None)
  }

  /** `handleSubmit`: a failing check shows its error and sends nothing;
      otherwise `answer` is the server's reply, whose message is shown and
      the form emptied on success, and whose error is shown on failure. */
  function Submit(s: FormState, answer: Response): (r: FormState)
    ensures Check(s.form).Some? ==> r == FormState(s.form, "", Check(s.form).value)
    ensures Check(s.form).None? && answer.Done? ==> r == FormState(EmptyForm, answer.message, "")
    ensures Check(s.form).None? && answer.Fail? ==> r.form == s.form && r.msg == "" && r.error != ""
  {
    var check := Check(s.form);
    if check.Some? then FormState(s.form, "", check.value)
    else match answer
      case Done(message) => FormState(EmptyForm, message, "")
      case Fail(_, error) => FormState(s.form, "", if error == "" then "Registration failed" else error)
  }

  /** A form that passes the client's checks passes the server's too: the
      server can then refuse it only as a duplicate (or with a storage
      error), never for a missing field or a bad format. */
  lemma ClientChecksSuffice(users: seq<User>, f: Form, id: UserId, now: int)
    requires Check(f).None?
    ensures var reply := AuthRoutes.RegisterRoute(users, Request(f), id, now).0;
      || reply.Done?
      || reply == Fail(400, "User with these details already exists")
      || (reply.Fail? && reply.status == 500)
  {
    var reply := AuthRoutes.RegisterRoute(users, Request(f), id, now).0;
    assert !Falsy(Some(f.name)) && !Falsy(Some(f.mobile));
    assert RegisterEmailOk(f.email);
    assert !Falsy(Some(f.email));
  }
}
