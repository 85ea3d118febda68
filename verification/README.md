# Account authentication core of auth-service

This project is a Dafny model of the account-authentication logic of a small
user-account HTTP service. The service has two endpoints. `POST /register`
validates a payload, hashes the password and stores an account record.
`POST /login` validates the credentials, looks the account up by e-mail
address, checks three status flags in a fixed order, compares the password
and signs a token.

The model has one module per source file, plus two shared modules:

- `Wrappers` (`wrappers.dfy`): `Option`, `Result`, and `Try` (the value of a call that may throw, or the thrown message).
- `Zod` (`zod.dfy`): the parts of the validation library the schemas use. This covers JSON values, request bodies, issues, and the rules `z.string().min().max()`, `z.email()` and `z.number().min()`.
- `RegisterSchema` (`register_schema.dfy`): the six registration field rules. They appear twice: in plain words (`Accepts`, `FieldOk`) and as the schema declares them with the library rules (`FieldProblem`, `Issues`, `Parse`). Lemmas connect the two.
- `LoginSchema` (`login_schema.dfy`): the two login field rules.
- `ZodErrorParser` (`zod_error_parser.dfy`): flattens issues into `{message, path[0]}` entries.
- `UserModel` (`user_model.dfy`): the account record, its required paths and the defaults of its three flags.
- `AuthService` (`auth_service.dfy`):
  - `Login` is a pure function. It follows the early-return chain.
  - `Registration` is the registration flow as a function.
  - `CredentialStore` is a class. It holds the records as a `seq` that its `Register` method extends, and `FindOne` answers the address query.
  - `FindOneAnswer` is the contract of `findOne`. It allows any one of several records with the same address.
- `AuthProperties` (`auth_properties.dfy`): the ordering properties of login, and login after registration.

Collaborators whose code is outside this model are parameters:

- the e-mail syntax rule (`Services.isEmail`);
- `hashPassword` and `comparePassword` (`Services.hash`, `Services.compare`);
- token signing over the claim `{user_email}` (`Services.sign`);
- the store lookup (`lookup`), constrained by `FindOneAnswer`;
- the generated id (`userId`);
- a failure of the store on insert (`storeFault`).

Each collaborator that may throw returns a `Try`.

The model follows the code where its behaviour departs from a uniform error scheme:

- A login payload that fails its schema gets status 500, not 400.
- A wrong password gets the message "Invalid  password". An unknown address gets "Invalid email or password". So the two cases can be told apart.
- The login password has no length rule, so the empty string is accepted.
- E-mail addresses need not be unique. `FindOneAnswer` lets the lookup return any matching record.

## Model

| member | source | states |
|---|---|---|
| `RegisterSchema.FieldProblem` | src/module/auth/schema/registerSchema.js:3-10 | A declared field's library rule finds no problem iff the field's plain-words rule holds. Undeclared keys are never checked. |
| `RegisterSchema.ObjectIssues` | src/module/auth/schema/registerSchema.js:3-10 | No issue is reported iff every field's rule holds. Each failing field gets an issue at path `[key]` with its rule's code and message. Every issue names a failing declared field. There is exactly one issue per failing field, in declaration order: the `i`-th issue's path is `[k]` for the `i`-th key whose rule fails. |
| `RegisterSchema.AcceptsIffEveryFieldOk` | src/module/auth/schema/registerSchema.js:3-10 | An object payload is accepted iff each of the six declared fields keeps its rule. |
| `RegisterSchema.NoIssuesIffAccepted` | src/module/auth/schema/registerSchema.js:3-10 | The parse reports no issue iff the payload is an object and all six rules hold, so breaking any single rule rejects the payload. |
| `RegisterSchema.Parse` | src/module/auth/schema/registerSchema.js:3-10 | Succeeds iff the payload is accepted. The parsed values reproduce the payload's six fields, and other keys are dropped. On failure it returns the issue list, which is non-empty. |
| `RegisterSchema.ObjectIssuesReadOnlyKeys` | src/module/auth/schema/registerSchema.js:3-10 | Two payloads that agree on the given fields get the same issues for them, in the same order. |
| `RegisterSchema.ParseStripsUndeclaredKeys` | src/module/auth/schema/registerSchema.js:3-10 | Two object payloads that agree on the six declared fields parse to the same result. Other keys are stripped. |
| `RegisterSchema.IssuesNameExactlyViolatedFields` | src/module/auth/schema/registerSchema.js:3-10 | For an object payload, some issue has path `[key]` iff `key` is a declared field whose rule fails. |
| `RegisterSchema.UserNameIssueMessages` | src/module/auth/schema/registerSchema.js:4 | A non-string user name is reported as "user name must be a string". One shorter than 4 is reported as "user name should be 4 char long". One longer than 10 gets the library's too-big issue. |
| `RegisterSchema.EmailIssueMessage` | src/module/auth/schema/registerSchema.js:5 | A missing, non-string or malformed address is reported with "email is required". |
| `RegisterSchema.PhoneIssues` | src/module/auth/schema/registerSchema.js:6 | For every object payload: a missing or non-number `phone_no` (a string of digits included) gets a type issue at `["phone_no"]`. A number below 10 gets a too-small issue. No issue names `phone_no` iff it is a number of at least 10. |
| `LoginSchema.Parse` | src/module/auth/schema/loginSchema.js:3-6 | Succeeds iff the address is a string the e-mail rule accepts and the password is a string. The credentials are the payload's values. On failure it returns the issues, which are non-empty. |
| `LoginSchema.IssueMessages` | src/module/auth/schema/loginSchema.js:4-5 | A bad or missing address yields "user email is required", in both directions. A missing or non-string password yields "password is required", in both directions. No other issue is ever reported. |
| `LoginSchema.EmptyPasswordAccepted` | src/module/auth/schema/loginSchema.js:5 | The empty password is accepted along with a valid address. |
| `ZodErrorParser.Parse` | src/utils/zodError.js:3-8 | The output has the input's length and the same order. Entry `i` carries issue `i`'s message unchanged and the first segment of its path, or none for an empty path. |
| `ZodErrorParser.ParseAppend` | src/utils/zodError.js:4-6 | Flattening distributes over concatenation. |
| `ZodErrorParser.IssueYieldsEntry` | src/utils/zodError.js:5 | An issue whose path starts with `key` yields an entry with path `key` and its message, whatever the later segments. |
| `ZodErrorParser.EntryComesFromIssue` | src/utils/zodError.js:5 | Every entry naming `key` comes from an issue whose path starts with `key` and that has the same message. |
| `UserModel.Create` | src/module/auth/modal.js:3-50 | A record is created iff `user_id`, `password`, `first_name` and `last_name` are non-empty strings. It keeps the declared paths and defaults each missing flag to false. Otherwise it fails naming exactly the required paths that are absent or empty. |
| `UserModel.FlagsDefaultFalse` | src/module/auth/modal.js:31-45 | A document that sets no flag gives a record with all three flags false. |
| `UserModel.NameAndEmailOptional` | src/module/auth/modal.js:8-15 | `user_name` and `user_email` (declared with `require`) never affect whether creation succeeds. |
| `AuthService.Login` | src/module/auth/service.js:37-96 | The status is always one of 200, 400, 403 and 500. It is 500 iff an error was caught. It is 200 iff the payload parses, an account is found, the account is not blocked, verified and not deleted, the password matches and signing succeeds. A 200 carries "User login success" and a token. |
| `AuthService.CatchWritesAsWritten` | src/module/auth/service.js:24-31 | The catch block as written always ends with a 500 write. It writes twice exactly when the error is a schema error. |
| `AuthService.CatchReply` | src/module/auth/service.js:24-31 | One response per caught error: the first write of the block as written. It is 400 iff the error is a schema error and 500 otherwise. |
| `AuthService.Registration` | src/module/auth/service.js:10-35 | A rejected payload answers 400 with the flattened issues. An accepted one answers 201 iff the hash succeeds and is non-empty, the id is non-empty and the store does not fail, and otherwise 500. The 500 carries the caught error: the hash error's message; or a validation error naming the empty required paths, `user_id` and/or `password`; or the store fault's message. A record is stored exactly on 201. It holds the parsed fields, the id and the hash in place of the password, no phone number, and all flags false. |
| `AuthService.CredentialStore.FindOne` | src/module/auth/service.js:45 | The store's answer to the address query meets the `findOne` contract. "None" comes only when no record carries the address. Otherwise the answer is a stored record with that address. |
| `AuthService.CredentialStore.Register` | src/module/auth/service.js:10-35 | The response is the registration's response. The records grow by exactly the stored record, if any. |
| `AuthProperties.InvalidLoginPayloadIs500` | src/module/auth/service.js:39-44 | A payload the login schema rejects gets 500 with the schema error, whatever the store holds. |
| `AuthProperties.UnknownEmailIs400` | src/module/auth/service.js:45-51 | If no record carries the address, login answers 400 "Invalid email or password", whatever the password. |
| `AuthProperties.BlockedIs403` | src/module/auth/service.js:52-57 | A blocked account gets 403 "blocked", whatever its other flags and the password. |
| `AuthProperties.UnverifiedIs403` | src/module/auth/service.js:58-63 | An unblocked, unverified account gets 403 "not verified", whatever the deleted flag and the password. |
| `AuthProperties.DeletedIs403` | src/module/auth/service.js:64-69 | An unblocked, verified, deleted account gets 403 "deleted", whatever the password. |
| `AuthProperties.CompareOnlyInGoodStanding` | src/module/auth/service.js:52-77 | Unless an account in good standing is found, replacing the password comparison and the signer changes nothing. So neither is consulted. |
| `AuthProperties.WrongPasswordIs400` | src/module/auth/service.js:71-77 | A mismatched password on an account in good standing gets 400 "Invalid  password", which differs from the unknown-address message. |
| `AuthProperties.TokenSignedOverStoredEmail` | src/module/auth/service.js:78-86 | On 200 the record found carries the payload's address, and the token is the signature over exactly that address. |
| `AuthProperties.ThrownErrorsAre500` | src/module/auth/service.js:87-92 | A store error becomes 500 carrying its message. For an account in good standing, a comparison error becomes 500 carrying its message. A signing error after a matching password also becomes 500 carrying its message. |
| `AuthProperties.MatchingPasswordIs200` | src/module/auth/service.js:71-86 | When hashing and comparison agree, an account in good standing that stores the hash of the submitted password is let in with the signed token. |
| `AuthProperties.FreshAccountNotVerified` | src/module/auth/service.js:18 | After a successful registration, login with that address and any password string answers 403 "not verified", if no earlier record shares the address. |
| `AuthProperties.DuplicateAddressAnswersEither` | src/module/auth/modal.js:12-15 | With two records under one address, `findOne` may answer with either, and never "none". |
| `AuthProperties.SameAddressRegisteredTwice` | src/module/auth/service.js:10-35 | Two accepted registrations under one address leave two records with it, and `findOne` may answer with either. Registration checks no uniqueness. |
| `AuthProperties.UndeclaredKeysIgnored` | src/module/auth/service.js:10-35 | Two object payloads that agree on the six declared fields get the same response and store the same record, whatever other keys they carry. |
| `AuthProperties.PhoneNumberNeverStored` | src/module/auth/service.js:18 | A stored registration came from a payload with a numeric `phone_no`, yet the record's `phone_number` is absent. |
| `AuthProperties.FlattenedIssuesNameViolatedFields` | src/module/auth/service.js:25-28 | The flattened issues of an object payload have an entry naming `key` iff `key` is a declared field whose rule fails. |
| `AuthProperties.RejectedFieldsNamed` | src/module/auth/service.js:25-28 | A rejected object payload gets 400. Its entries name exactly the fields that broke their rules. |
| `AuthProperties.InvalidPayloadWrittenTwice` | src/module/auth/service.js:24-31 | As written, a rejected payload produces two writes: 400 and then 500. |
| `AuthProperties.AliceScenario` | src/module/auth/service.js:10-96 | On a new store, registering alice at `a@b.com` with "secret123" answers 201. A login with the same credentials, looked up with the store's own query, then answers 403 "not verified". |

## Left out

- Express routing and the route-level catch (src/module/auth/controller.js), the server bootstrap (src/app.js) and the database connection (src/module/db/db.js): I/O and process lifecycle.
- bcrypt (src/utils/bcrypt.js): hashing and comparison are parameters. Salting and cost are not modelled. `MatchingPasswordIs200` assumes the two agree through a predicate in its requires.
- `jwt.sign` and its hard-coded secret: signing is a parameter over the claim `{user_email}`.
- `Math.random()` id generation: the id is an arbitrary string parameter. Floating point is not modelled.
- The e-mail regular expression of the validation library: it is the parameter `isEmail`.
- The library's default issue messages: they are kept abstract as `Default(code)`. The text of a `ZodError`'s `message` is carried as the issue list.
- Mongoose type casting of non-string values into string paths. Registration only ever supplies strings there.
- String lengths count Dafny characters, not UTF-16 code units. JSON numbers are reals, and NaN and Infinity are not representable.
- The string rule reports at most one of its length checks. The library would report both only if the minimum exceeded the maximum, which never happens in these schemas.
- The second write of the catch block fails after the first response has been sent. That failure and the resulting unhandled rejection of the unawaited call are not modelled beyond the finding below.
- AuthService.Registration: does not state that the stored hash differs from the plaintext password, because that is a property of the hashing library.
- Which of several records with the same address `findOne` returns is left open. The store's insertion order and concurrent requests are not modelled.

## Findings

| source | as written | input that shows it | evidently intended | confidence | as-written member | corrected member |
|---|---|---|---|---|---|---|
| src/module/auth/service.js:24-31 | A schema error writes 400 with the flattened issues, then falls through and also writes 500 on the same response. | Any registration body that breaks a rule, e.g. `user_name: "abc"`. | Exactly one terminal response: 400 with the field errors. | not executed | `AuthProperties.InvalidPayloadWrittenTwice` | `AuthService.CatchReply` |
