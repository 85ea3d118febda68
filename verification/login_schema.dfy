/** The login payload schema: an e-mail address and a password string. */
module LoginSchema {
  import opened Wrappers
  import opened Zod

  const EmailMessage := Text("user email is required")
  const PasswordMessage := Text("password is required")

  datatype Credentials = Credentials(user_email: string, password: string)

  /** Accepted iff the address is a string the e-mail rule accepts and the password is a string of any length. */
  predicate Accepts(email: Option<Value>, password: Option<Value>, isEmail: string -> bool) {
    email.Some? && email.value.Str? && isEmail(email.value.s)
    && password.Some? && password.value.Str?
  }

  /** Every issue `loginSchema.parse` reports, in field order. */
  function Issues(email: Option<Value>, password: Option<Value>, isEmail: string -> bool): seq<Issue> {
    IssuesAt("user_email", EmailProblem(email, EmailMessage, isEmail))
    + IssuesAt("password", StringProblem(password, PasswordMessage, None, None))
  }

  /** `loginSchema.parse`: the credentials, or every issue found. */
  function Parse(email: Option<Value>, password: Option<Value>, isEmail: string -> bool): (r: Result<Credentials, seq<Issue>>)
    ensures r.Ok? <==> Accepts(email, password, isEmail)
    ensures r.Ok? ==> email == Some(Str(r.value.user_email)) && password == Some(Str(r.value.password))
    ensures r.Err? ==> r.error == Issues(email, password, isEmail) && r.error != []
  {
    var issues := Issues(email, password, isEmail);
    if issues != [] then Err(issues)
    else Ok(Credentials(email.value.s, password.value.s))
  }

  /** A bad or missing address is reported as "user email is required", a missing or non-string password as "password is required", and nothing else is reported. */
  lemma IssueMessages(email: Option<Value>, password: Option<Value>, isEmail: string -> bool)
    ensures !(email.Some? && email.value.Str? && isEmail(email.value.s)) <==>
      exists code :: Issue(code, EmailMessage, ["user_email"]) in Issues(email, password, isEmail)
    ensures !(password.Some? && password.value.Str?) <==>
      Issue(InvalidType, PasswordMessage, ["password"]) in Issues(email, password, isEmail)
    ensures forall iss :: iss in Issues(email, password, isEmail) ==>
      (iss.path == ["user_email"] && iss.message == EmailMessage) || (iss.path == ["password"] && iss.message == PasswordMessage)
  {
    var p := EmailProblem(email, EmailMessage, isEmail);
    if p.Some? {
      assert Issue(p.value.code, EmailMessage, ["user_email"]) in Issues(email, password, isEmail);
    }
  }

  /** The password has no length rule: the empty string passes. */
  lemma EmptyPasswordAccepted(address: string, isEmail: string -> bool)
    requires isEmail(address)
    ensures Parse(Some(Str(address)), Some(Str("")), isEmail) == Ok(Credentials(address, ""))
  {
  }
}
