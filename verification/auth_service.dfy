/**
 * The authentication service: the login decision chain and the registration
 * flow. The store lookup, password hashing and comparison, token signing and
 * the e-mail syntax check are collaborators whose code is not part of this
 * model; they enter as function parameters.
 */
module AuthService {
  import opened Wrappers
  import opened Zod
  import RegisterSchema
  import LoginSchema
  import ZodErrorParser
  import opened UserModel

  /**
   * The collaborators: the e-mail syntax rule, `hashPassword`,
   * `comparePassword(plain, hash)` and token signing over the claim
   * `{user_email}`. Each of the last three may throw.
   */
  datatype Services = Services(
    isEmail: string -> bool,
    hash: string -> Try<string>,
    compare: (string, string) -> Try<bool>,
    sign: Option<string> -> Try<string>)

  /** An error caught by the service: a failed schema parse, a failed record validation, or anything else thrown. */
  datatype Exception = ZodError(issues: seq<Issue>) | ValidationError(paths: seq<string>) | Error(message: string)

  const InvalidCredentials := "Invalid email or password"
  const BlockedMessage := "User is blocked please contect admin."
  const NotVerifiedMessage := "Account is not verified please verify your account."
  const DeletedMessage := "Your account is delete please activate your account."
  const WrongPassword := "Invalid  password"
  const LoginSuccess := "User login success"
  const RegisterSuccess := "User register successful"

  // ---------------------------------------------------------------- login

  /** The body of a login result: a message, the success data, or the caught error (whose message is returned). */
  datatype LoginBody = Message(text: string) | Data(message: string, token: string) | Failure(error: Exception)

  datatype LoginResponse = LoginResponse(status: int, body: LoginBody)

  /**
   * `findOne({user_email: email})` over the stored records: it may fail, it
   * answers "none" only when no record carries that address, and otherwise
   * it returns one of the records that do (which one is unspecified).
   */
  predicate FindOneAnswer(records: seq<Account>, email: string, answer: Try<Option<Account>>) {
    answer.Ok? ==>
      if answer.value.None? then forall a :: a in records ==> a.user_email != Some(email)
      else answer.value.value in records && answer.value.value.user_email == Some(email)
  }

  /** None of the three status flags bars this account from logging in. */
  predicate InGoodStanding(u: Account) {
    !u.is_blocked && u.is_verified && !u.is_deleted
  }

  /** The login payload's credentials as the login schema reads them. */
  function Credentials(payload: Body, svc: Services): Result<LoginSchema.Credentials, seq<Issue>> {
    LoginSchema.Parse(Field(payload, "user_email"), Field(payload, "password"), svc.isEmail)
  }

  /** Every step of login succeeds: the payload parses, an account is found, its flags allow it, the password matches and the token is signed. */
  predicate Admitted(payload: Body, lookup: string -> Try<Option<Account>>, svc: Services) {
    var creds := Credentials(payload, svc);
    creds.Ok? && lookup(creds.value.user_email).Ok? && lookup(creds.value.user_email).value.Some?
    && var u := lookup(creds.value.user_email).value.value;
    InGoodStanding(u) && svc.compare(creds.value.password, u.password) == Ok(true) && svc.sign(u.user_email).Ok?
  }

  /**
   * `login`: parse the payload, look the address up, then check in order
   * blocked, not verified, deleted, and the password; sign a token on
   * success. Every error thrown on the way becomes a 500 result.
   */
  function Login(payload: Body, lookup: string -> Try<Option<Account>>, svc: Services): (r: LoginResponse)
    ensures r.status in {200, 400, 403, 500}
    ensures r.status == 500 <==> r.body.Failure?
    ensures r.status == 200 <==> Admitted(payload, lookup, svc)
    ensures r.status == 200 ==> r.body.Data? && r.body.message == LoginSuccess
  {
    match Credentials(payload, svc)
    case Err(issues) => LoginResponse(500, Failure(ZodError(issues)))
    case Ok(auth) =>
      match lookup(auth.user_email)
      case Err(m) => LoginResponse(500, Failure(Error(m)))
      case Ok(None) => LoginResponse(400, Message(InvalidCredentials))
      case Ok(Some(user)) =>
        if user.is_blocked then LoginResponse(403, Message(BlockedMessage))
        else if !user.is_verified then LoginResponse(403, Message(NotVerifiedMessage))
        else if user.is_deleted then LoginResponse(403, Message(DeletedMessage))
        else
          match svc.compare(auth.password, user.password)
          case Err(m) => LoginResponse(500, Failure(Error(m)))
          case Ok(false) => LoginResponse(400, Message(WrongPassword))
          case Ok(true) =>
            match svc.sign(user.user_email)
            case Err(m) => LoginResponse(500, Failure(Error(m)))
            case Ok(token) => LoginResponse(200, Data(LoginSuccess, token))
  }

  // --------------------------------------------------------- registration

  datatype RegisterResponse =
    | Created(message: string)
    | BadRequest(errors: seq<ZodErrorParser.FieldError>)
    | ServerError(error: Exception)
  {
    function Status(): int {
      match this
      case Created(_) => 201
      case BadRequest(_) => 400
      case ServerError(_) => 500
    }
  }

  /**
   * The catch block of `userRegistration` as written: a schema failure writes
   * 400 with the flattened issues and then falls through to write 500 as well.
   */
  function CatchWritesAsWritten(e: Exception): (writes: seq<RegisterResponse>)
    ensures |writes| > 0 && writes[|writes| - 1] == ServerError(e)
    ensures e.ZodError? <==> |writes| == 2
  {
    if e.ZodError? then [BadRequest(ZodErrorParser.Parse(e.issues)), ServerError(e)]
    else [ServerError(e)]
  }

  /**
   * The catch block with one terminal response per path: the first write of
   * the block as written, which is the one the client receives.
   */
  function CatchReply(e: Exception): (r: RegisterResponse)
    ensures r == CatchWritesAsWritten(e)[0]
    ensures r.Status() == 400 <==> e.ZodError?
    ensures r.Status() == 500 <==> !e.ZodError?
  {
    if e.ZodError? then BadRequest(ZodErrorParser.Parse(e.issues)) else ServerError(e)
  }

  /**
   * The document `create` receives: the parsed payload spread, plus the id
   * and the hash in place of the password. The payload's `phone_no` is a key
   * the record schema does not declare (it declares `phone_number`).
   */
  function NewUserDocument(data: RegisterSchema.Registration, userId: string, passwordHash: string): Document {
    Document(
      user_id := Some(userId), user_name := Some(data.user_name), user_email := Some(data.user_email),
      phone_number := None, password := Some(passwordHash),
      first_name := Some(data.first_name), last_name := Some(data.last_name),
      is_verified := None, is_blocked := None, is_deleted := None,
      undeclared := {"phone_no"})
  }

  /** A registration's response and the record it stores, if any. */
  datatype Outcome = Outcome(response: RegisterResponse, stored: Option<Account>)

  /** A record as registration stores it for payload `data`. */
  predicate StoredFor(a: Account, data: RegisterSchema.Registration, userId: string, passwordHash: string) {
    a.user_id == userId && a.password == passwordHash
    && a.user_name == Some(data.user_name) && a.user_email == Some(data.user_email)
    && a.first_name == data.first_name && a.last_name == data.last_name
    && a.phone_number.None?
    && !a.is_verified && !a.is_blocked && !a.is_deleted
  }

  /**
   * `userRegistration` with the id generator's output `userId` and the
   * store's failure on insert `storeFault` as inputs: validate, hash the
   * password, create the record, answer 201.
   */
  function Registration(body: Body, userId: string, svc: Services, storeFault: Option<string>): (o: Outcome)
    ensures o.stored.Some? <==> o.response.Created?
    ensures o.response.Created? ==> o.response.message == RegisterSuccess
    ensures !RegisterSchema.Accepts(body, svc.isEmail) ==>
      o.response == BadRequest(ZodErrorParser.Parse(RegisterSchema.Issues(body, svc.isEmail)))
    ensures RegisterSchema.Accepts(body, svc.isEmail) ==>
      var data := RegisterSchema.Parse(body, svc.isEmail).value;
      var h := svc.hash(data.password);
      (o.response.Created? <==> h.Ok? && h.value != "" && userId != "" && storeFault.None?)
      && (o.stored.Some? ==> StoredFor(o.stored.value, data, userId, h.value))
      && (o.response.ServerError? <==> !o.response.Created?)
      && (h.Err? ==> o.response == ServerError(Error(h.error)))
      && (h.Ok? && (userId == "" || h.value == "") ==>
            o.response == ServerError(ValidationError(
              (if userId == "" then ["user_id"] else []) + (if h.value == "" then ["password"] else []))))
      && (h.Ok? && userId != "" && h.value != "" && storeFault.Some? ==>
            o.response == ServerError(Error(storeFault.value)))
  {
    match RegisterSchema.Parse(body, svc.isEmail)
    case Err(issues) => Outcome(CatchReply(ZodError(issues)), None)
    case Ok(data) =>
      assert |data.first_name| >= 3 && |data.last_name| >= 3;
      match svc.hash(data.password)
      case Err(m) => Outcome(CatchReply(Error(m)), None)
      case Ok(passwordHash) =>
        assert MissingPaths(NewUserDocument(data, userId, passwordHash)) ==
          (if userId == "" then ["user_id"] else []) + (if passwordHash == "" then ["password"] else []);
        match Create(NewUserDocument(data, userId, passwordHash))
        case Err(paths) => Outcome(CatchReply(ValidationError(paths)), None)
        case Ok(account) =>
          if storeFault.Some? then Outcome(CatchReply(Error(storeFault.value)), None)
          else Outcome(Created(RegisterSuccess), Some(account))
  }

  /** The credential store: the account records, in insertion order. No uniqueness is enforced on any field. */
  class CredentialStore {
    var records: seq<Account>

    constructor ()
      ensures records == []
    {
      records := [];
    }

    /**
     * `findOne({user_email: email})` on this store: any answer it gives
     * satisfies `FindOneAnswer`; this one is the earliest matching record.
     */
    method FindOne(email: string) returns (found: Option<Account>)
      ensures FindOneAnswer(records, email, Ok(found))
    {
      var i := 0;
      while i < |records|
        invariant 0 <= i <= |records|
        invariant forall j :: 0 <= j < i ==> records[j].user_email != Some(email)
      {
        if records[i].user_email == Some(email) {
          return Some(records[i]);
        }
        i := i + 1;
      }
      return None;
    }

    /** Registration against this store: the records grow by exactly the stored record, if any. */
    method Register(body: Body, userId: string, svc: Services, storeFault: Option<string>) returns (resp: RegisterResponse)
      modifies this
      ensures var o := Registration(body, userId, svc, storeFault);
        resp == o.response
        && records == old(records) + (if o.stored.Some? then [o.stored.value] else [])
    {
      var parsed := RegisterSchema.Parse(body, svc.isEmail);
      if parsed.Err? {
        resp := CatchReply(ZodError(parsed.error));
        return;
      }
      var hashed := svc.hash(parsed.value.password);
      if hashed.Err? {
        resp := CatchReply(Error(hashed.error));
        return;
      }
      var created := Create(NewUserDocument(parsed.value, userId, hashed.value));
      if created.Err? {
        resp := CatchReply(ValidationError(created.error));
        return;
      }
      if storeFault.Some? {
        resp := CatchReply(Error(storeFault.value));
        return;
      }
      records := records + [created.value];
      resp := Created(RegisterSuccess);
    }
  }
}
