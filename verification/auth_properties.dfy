/**
 * Properties of the login decision chain and of login after registration,
 * stated over every collaborator that behaves as its contract says.
 */
module AuthProperties {
  import opened Wrappers
  import opened Zod
  import RegisterSchema
  import LoginSchema
  import ZodErrorParser
  import opened UserModel
  import opened AuthService

  /** Login whose payload names `email` and carries some password string, so that it passes the login schema. */
  predicate WellFormedLogin(payload: Body, email: string, svc: Services) {
    Field(payload, "user_email") == Some(Str(email)) && svc.isEmail(email)
    && Field(payload, "password").Some? && Field(payload, "password").value.Str?
  }

  /** A payload the login schema rejects yields 500 with the parse error, before the store is consulted. */
  lemma InvalidLoginPayloadIs500(payload: Body, lookup: string -> Try<Option<Account>>, svc: Services)
    requires !LoginSchema.Accepts(Field(payload, "user_email"), Field(payload, "password"), svc.isEmail)
    ensures Login(payload, lookup, svc) ==
      LoginResponse(500, Failure(ZodError(LoginSchema.Issues(Field(payload, "user_email"), Field(payload, "password"), svc.isEmail))))
  {
  }

  /** An address no record carries gets 400 "Invalid email or password", whatever the password. */
  lemma UnknownEmailIs400(records: seq<Account>, payload: Body, email: string, lookup: string -> Try<Option<Account>>, svc: Services)
    requires WellFormedLogin(payload, email, svc)
    requires FindOneAnswer(records, email, lookup(email)) && lookup(email).Ok?
    requires forall a :: a in records ==> a.user_email != Some(email)
    ensures Login(payload, lookup, svc) == LoginResponse(400, Message(InvalidCredentials))
  {
  }

  /** A blocked account gets 403, whatever its other flags and whatever the password. */
  lemma BlockedIs403(payload: Body, email: string, u: Account, lookup: string -> Try<Option<Account>>, svc: Services)
    requires WellFormedLogin(payload, email, svc)
    requires lookup(email) == Ok(Some(u)) && u.is_blocked
    ensures Login(payload, lookup, svc) == LoginResponse(403, Message(BlockedMessage))
  {
  }

  /** An unblocked, unverified account gets 403 "not verified", whatever its deleted flag and the password. */
  lemma UnverifiedIs403(payload: Body, email: string, u: Account, lookup: string -> Try<Option<Account>>, svc: Services)
    requires WellFormedLogin(payload, email, svc)
    requires lookup(email) == Ok(Some(u)) && !u.is_blocked && !u.is_verified
    ensures Login(payload, lookup, svc) == LoginResponse(403, Message(NotVerifiedMessage))
  {
  }

  /** An unblocked, verified, deleted account gets 403 "deleted", whatever the password. */
  lemma DeletedIs403(payload: Body, email: string, u: Account, lookup: string -> Try<Option<Account>>, svc: Services)
    requires WellFormedLogin(payload, email, svc)
    requires lookup(email) == Ok(Some(u)) && !u.is_blocked && u.is_verified && u.is_deleted
    ensures Login(payload, lookup, svc) == LoginResponse(403, Message(DeletedMessage))
  {
  }

  /**
   * The password is compared, and a token signed, only for an account in
   * good standing: otherwise replacing both collaborators changes nothing.
   */
  lemma CompareOnlyInGoodStanding(payload: Body, lookup: string -> Try<Option<Account>>, svc: Services,
                                  compare: (string, string) -> Try<bool>, sign: Option<string> -> Try<string>)
    requires var creds := Credentials(payload, svc);
      !(creds.Ok? && lookup(creds.value.user_email).Ok? && lookup(creds.value.user_email).value.Some?
        && InGoodStanding(lookup(creds.value.user_email).value.value))
    ensures Login(payload, lookup, svc) == Login(payload, lookup, svc.(compare := compare, sign := sign))
  {
  }

  /** A mismatched password on an account in good standing gets 400 with a message other than the unknown-address one. */
  lemma WrongPasswordIs400(payload: Body, email: string, u: Account, lookup: string -> Try<Option<Account>>, svc: Services)
    requires WellFormedLogin(payload, email, svc)
    requires lookup(email) == Ok(Some(u)) && InGoodStanding(u)
    requires svc.compare(Field(payload, "password").value.s, u.password) == Ok(false)
    ensures Login(payload, lookup, svc) == LoginResponse(400, Message(WrongPassword))
    ensures WrongPassword != InvalidCredentials
  {
  }

  /** The token is signed over exactly the `user_email` of the record found, which is the address the payload names. */
  lemma TokenSignedOverStoredEmail(records: seq<Account>, payload: Body, email: string,
                                   lookup: string -> Try<Option<Account>>, svc: Services)
    requires WellFormedLogin(payload, email, svc) && FindOneAnswer(records, email, lookup(email))
    requires Login(payload, lookup, svc).status == 200
    ensures lookup(email).Ok? && lookup(email).value.Some?
    ensures lookup(email).value.value.user_email == Some(email)
    ensures Login(payload, lookup, svc).body == Data(LoginSuccess, svc.sign(Some(email)).value)
  {
  }

  /** Any thrown error (store, compare or sign) becomes 500 carrying its message. */
  lemma ThrownErrorsAre500(payload: Body, email: string, lookup: string -> Try<Option<Account>>, svc: Services)
    requires WellFormedLogin(payload, email, svc)
    ensures lookup(email).Err? ==> Login(payload, lookup, svc) == LoginResponse(500, Failure(Error(lookup(email).error)))
    ensures lookup(email).Ok? && lookup(email).value.Some? && InGoodStanding(lookup(email).value.value) ==>
      var u := lookup(email).value.value;
      var c := svc.compare(Field(payload, "password").value.s, u.password);
      (c.Err? ==> Login(payload, lookup, svc) == LoginResponse(500, Failure(Error(c.error))))
      && (c == Ok(true) && svc.sign(u.user_email).Err? ==>
            Login(payload, lookup, svc) == LoginResponse(500, Failure(Error(svc.sign(u.user_email).error))))
  {
  }

  /** `hashPassword` and `comparePassword` agree: a password matches its own hash. */
  ghost predicate HasherSound(svc: Services) {
    forall p :: svc.hash(p).Ok? ==> svc.compare(p, svc.hash(p).value) == Ok(true)
  }

  /** An account in good standing whose stored hash is that of the submitted password is let in, when signing succeeds. */
  lemma MatchingPasswordIs200(payload: Body, email: string, u: Account, lookup: string -> Try<Option<Account>>, svc: Services)
    requires WellFormedLogin(payload, email, svc) && HasherSound(svc)
    requires lookup(email) == Ok(Some(u)) && InGoodStanding(u)
    requires svc.hash(Field(payload, "password").value.s) == Ok(u.password)
    requires svc.sign(u.user_email).Ok?
    ensures Login(payload, lookup, svc) == LoginResponse(200, Data(LoginSuccess, svc.sign(u.user_email).value))
  {
    var p := Field(payload, "password").value.s;
    assert svc.compare(p, svc.hash(p).value) == Ok(true);
  }

  // ------------------------------------------------- after registration

  /**
   * A freshly registered account is refused as "not verified" at login with
   * its address, provided no earlier record carries that address (with a
   * duplicate, `findOne` may pick the older record instead).
   */
  lemma FreshAccountNotVerified(records: seq<Account>, body: Body, userId: string, svc: Services, storeFault: Option<string>,
                                payload: Body, lookup: string -> Try<Option<Account>>)
    requires Registration(body, userId, svc, storeFault).response.Created?
    requires Field(payload, "user_email") == Field(body, "user_email")
    requires Field(payload, "password").Some? && Field(payload, "password").value.Str?
    requires forall a :: a in records ==> a.user_email != Some(Field(body, "user_email").value.s)
    requires FindOneAnswer(records + [Registration(body, userId, svc, storeFault).stored.value], Field(body, "user_email").value.s,
                             lookup(Field(body, "user_email").value.s))
    requires lookup(Field(body, "user_email").value.s).Ok?
    ensures Login(payload, lookup, svc) == LoginResponse(403, Message(NotVerifiedMessage))
  {
    var acct := Registration(body, userId, svc, storeFault).stored.value;
    var email := Field(body, "user_email").value.s;
    assert RegisterSchema.Accepts(body, svc.isEmail);
    var data := RegisterSchema.Parse(body, svc.isEmail).value;
    assert acct.user_email == Some(email);
    assert WellFormedLogin(payload, email, svc);
    assert acct in records + [acct];
    var found := lookup(email).value.value;
    assert found in records + [acct];
    assert found !in records;
  }

  /** With two records under one address, `findOne` may answer with either, and never "none". */
  lemma DuplicateAddressAnswersEither(records: seq<Account>, a: Account, b: Account, email: string)
    requires a in records && b in records
    requires a.user_email == Some(email) && b.user_email == Some(email)
    ensures FindOneAnswer(records, email, Ok(Some(a))) && FindOneAnswer(records, email, Ok(Some(b)))
    ensures !FindOneAnswer(records, email, Ok(None))
  {
  }

  /** Registration does not enforce unique addresses: two accepted registrations under one address leave two records `findOne` may answer with. */
  lemma SameAddressRegisteredTwice(records: seq<Account>, first: Body, firstId: string, second: Body, secondId: string,
                                   svc: Services, firstFault: Option<string>, secondFault: Option<string>)
    requires Registration(first, firstId, svc, firstFault).response.Created?
    requires Registration(second, secondId, svc, secondFault).response.Created?
    requires Field(first, "user_email") == Field(second, "user_email")
    ensures var a := Registration(first, firstId, svc, firstFault).stored.value;
      var b := Registration(second, secondId, svc, secondFault).stored.value;
      var email := Field(first, "user_email").value.s;
      FindOneAnswer(records + [a, b], email, Ok(Some(a))) && FindOneAnswer(records + [a, b], email, Ok(Some(b)))
  {
    var a := Registration(first, firstId, svc, firstFault).stored.value;
    var b := Registration(second, secondId, svc, secondFault).stored.value;
    assert RegisterSchema.Accepts(first, svc.isEmail) && RegisterSchema.Accepts(second, svc.isEmail);
    DuplicateAddressAnswersEither(records + [a, b], a, b, Field(first, "user_email").value.s);
  }

  /**
   * Keys a registration payload carries outside the six declared fields
   * change nothing: neither the response nor the stored record.
   */
  lemma UndeclaredKeysIgnored(first: Body, second: Body, userId: string, svc: Services, storeFault: Option<string>)
    requires first.Obj? && second.Obj?
    requires forall k :: k in RegisterSchema.FieldOrder ==> Field(first, k) == Field(second, k)
    ensures Registration(first, userId, svc, storeFault) == Registration(second, userId, svc, storeFault)
  {
    RegisterSchema.ParseStripsUndeclaredKeys(first, second, svc.isEmail);
  }

  /** The validated `phone_no` never reaches the stored record: the schema's path is `phone_number`. */
  lemma PhoneNumberNeverStored(body: Body, userId: string, svc: Services, storeFault: Option<string>)
    requires Registration(body, userId, svc, storeFault).stored.Some?
    ensures Field(body, "phone_no").Some? && Field(body, "phone_no").value.Num?
    ensures Registration(body, userId, svc, storeFault).stored.value.phone_number.None?
  {
  }

  /** The flattened issues of a payload object name each field that broke its rule, and no other field. */
  lemma FlattenedIssuesNameViolatedFields(body: Body, isEmail: string -> bool, key: string)
    requires body.Obj?
    ensures (exists m :: ZodErrorParser.FieldError(m, Some(key)) in ZodErrorParser.Parse(RegisterSchema.Issues(body, isEmail))) <==>
      key in RegisterSchema.FieldOrder && !RegisterSchema.FieldOk(key, body, isEmail)
  {
    var issues := RegisterSchema.Issues(body, isEmail);
    var errors := ZodErrorParser.Parse(issues);
    RegisterSchema.IssuesNameExactlyViolatedFields(body, isEmail, key);
    if key in RegisterSchema.FieldOrder && !RegisterSchema.FieldOk(key, body, isEmail) {
      var iss :| iss in issues && iss.path == [key];
      ZodErrorParser.IssueYieldsEntry(issues, iss, key);
    }
    if exists m :: ZodErrorParser.FieldError(m, Some(key)) in errors {
      var m :| ZodErrorParser.FieldError(m, Some(key)) in errors;
      ZodErrorParser.EntryComesFromIssue(issues, m, key);
      var iss :| iss in issues && |iss.path| > 0 && iss.path[0] == key && iss.message == m;
      assert iss.path == [key];
    }
  }

  /** A rejected registration answers 400 with an entry naming each field that broke its rule, and no other field. */
  lemma RejectedFieldsNamed(body: Body, userId: string, svc: Services, storeFault: Option<string>, key: string)
    requires body.Obj? && !RegisterSchema.Accepts(body, svc.isEmail)
    ensures var r := Registration(body, userId, svc, storeFault).response;
      r.BadRequest? && r.Status() == 400
      && ((exists m :: ZodErrorParser.FieldError(m, Some(key)) in r.errors) <==>
          key in RegisterSchema.FieldOrder && !RegisterSchema.FieldOk(key, body, svc.isEmail))
  {
    FlattenedIssuesNameViolatedFields(body, svc.isEmail, key);
  }

  /** As written, a rejected registration payload writes two responses: 400 with the issues, then 500. */
  lemma InvalidPayloadWrittenTwice(body: Body, svc: Services)
    requires !RegisterSchema.Accepts(body, svc.isEmail)
    ensures var writes := CatchWritesAsWritten(ZodError(RegisterSchema.Parse(body, svc.isEmail).error));
      |writes| == 2 && writes[0].Status() == 400 && writes[1].Status() == 500
  {
  }

  /** The example registration of alice. */
  const AliceRegistration := Obj(map[
    "user_name" := Str("alice"), "user_email" := Str("a@b.com"), "phone_no" := Num(12345.0),
    "password" := Str("secret123"), "first_name" := Str("Ann"), "last_name" := Str("Lee")])

  /** The example login of alice, with the password registered for alice. */
  const AliceLogin := Obj(map["user_email" := Str("a@b.com"), "password" := Str("secret123")])

  /** The example payload passes the registration schema and parses to its own field values. */
  lemma AliceAccepted(isEmail: string -> bool)
    requires isEmail("a@b.com")
    ensures RegisterSchema.Accepts(AliceRegistration, isEmail)
    ensures RegisterSchema.Parse(AliceRegistration, isEmail).value.password == "secret123"
    ensures RegisterSchema.Parse(AliceRegistration, isEmail).value.user_email == "a@b.com"
  {
    assert Field(AliceRegistration, "user_name") == Some(Str("alice"));
    assert Field(AliceRegistration, "user_email") == Some(Str("a@b.com"));
    assert Field(AliceRegistration, "phone_no") == Some(Num(12345.0));
    assert Field(AliceRegistration, "password") == Some(Str("secret123"));
    assert Field(AliceRegistration, "first_name") == Some(Str("Ann"));
    assert Field(AliceRegistration, "last_name") == Some(Str("Lee"));
  }

  /** The example login names the registered address and carries a password string. */
  lemma AliceLoginFields()
    ensures Field(AliceLogin, "user_email") == Some(Str("a@b.com")) == Field(AliceRegistration, "user_email")
    ensures Field(AliceLogin, "password") == Some(Str("secret123"))
  {
  }

  /** The example registration stores a record, given an id and a hash that are non-empty strings. */
  lemma AliceRegistered(userId: string, svc: Services)
    requires svc.isEmail("a@b.com") && userId != ""
    requires svc.hash("secret123").Ok? && svc.hash("secret123").value != ""
    ensures Registration(AliceRegistration, userId, svc, None).response.Created?
  {
    AliceAccepted(svc.isEmail);
  }

  /** Login with the example credentials, against a store holding one unverified, unblocked record under `a@b.com`. */
  lemma AliceRefused(svc: Services, lookup: string -> Try<Option<Account>>, acct: Account)
    requires svc.isEmail("a@b.com")
    requires acct.user_email == Some("a@b.com") && !acct.is_blocked && !acct.is_verified
    requires FindOneAnswer([acct], "a@b.com", lookup("a@b.com")) && lookup("a@b.com").Ok?
    ensures Login(AliceLogin, lookup, svc) == LoginResponse(403, Message(NotVerifiedMessage))
  {
    AliceLoginFields();
    UnverifiedIs403(AliceLogin, "a@b.com", acct, lookup, svc);
  }

  /**
   * On a new store, registering alice at `a@b.com` with password "secret123"
   * answers 201, and a login with the same credentials, looked up with the
   * store's own `findOne`, then answers 403 "not verified".
   */
  method AliceScenario(userId: string, svc: Services) returns (registered: RegisterResponse, loggedIn: LoginResponse)
    requires svc.isEmail("a@b.com") && userId != ""
    requires svc.hash("secret123").Ok? && svc.hash("secret123").value != ""
    ensures registered.Status() == 201
    ensures loggedIn == LoginResponse(403, Message(NotVerifiedMessage))
  {
    var store := new CredentialStore();
    registered := store.Register(AliceRegistration, userId, svc, None);
    AliceRegistered(userId, svc);
    AliceAccepted(svc.isEmail);
    ghost var acct := Registration(AliceRegistration, userId, svc, None).stored.value;
    assert store.records == [acct];
    var found := store.FindOne("a@b.com");
    var lookup := (e: string) => if e == "a@b.com" then Ok(found) else Ok(None);
    AliceRefused(svc, lookup, acct);
    loggedIn := Login(AliceLogin, lookup, svc);
  }
}
