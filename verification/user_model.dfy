/** The account record the credential store keeps, with its required fields and defaults. */
module UserModel {
  import opened Wrappers

  /** A stored account. `user_name`, `user_email` and `phone_number` may be absent. */
  datatype Account = Account(
    user_id: string,
    user_name: Option<string>,
    user_email: Option<string>,
    phone_number: Option<real>,
    password: string,
    first_name: string,
    last_name: string,
    is_verified: bool,
    is_blocked: bool,
    is_deleted: bool)

  /**
   * A document handed to `create`: the declared paths it supplies, and the
   * names of supplied keys the schema does not declare (which are not saved).
   */
  datatype Document = Document(
    user_id: Option<string>,
    user_name: Option<string>,
    user_email: Option<string>,
    phone_number: Option<real>,
    password: Option<string>,
    first_name: Option<string>,
    last_name: Option<string>,
    is_verified: Option<bool>,
    is_blocked: Option<bool>,
    is_deleted: Option<bool>,
    undeclared: set<string>)

  /** The paths declared `required: true` that have no default. `user_name` and `user_email` say `require`, which the schema ignores. */
  const RequiredPaths: seq<string> := ["user_id", "password", "first_name", "last_name"]

  /** A required string path is satisfied by a non-empty string. */
  predicate Present(s: Option<string>) {
    s.Some? && s.value != ""
  }

  /** The required paths a document fails, in declaration order. */
  function MissingPaths(d: Document): seq<string> {
    (if Present(d.user_id) then [] else ["user_id"])
    + (if Present(d.password) then [] else ["password"])
    + (if Present(d.first_name) then [] else ["first_name"])
    + (if Present(d.last_name) then [] else ["last_name"])
  }

  /** What `create` stores for a document: declared paths copied, each status flag defaulting to false. */
  predicate Persists(d: Document, a: Account) {
    Some(a.user_id) == d.user_id && a.user_name == d.user_name && a.user_email == d.user_email
    && a.phone_number == d.phone_number && Some(a.password) == d.password
    && Some(a.first_name) == d.first_name && Some(a.last_name) == d.last_name
    && a.is_verified == d.is_verified.GetOr(false)
    && a.is_blocked == d.is_blocked.GetOr(false)
    && a.is_deleted == d.is_deleted.GetOr(false)
  }

  /** Schema validation and defaulting on `create`: the record, or the required paths that failed. */
  function Create(d: Document): (r: Result<Account, seq<string>>)
    ensures r.Ok? <==> Present(d.user_id) && Present(d.password) && Present(d.first_name) && Present(d.last_name)
    ensures r.Ok? ==> Persists(d, r.value)
    ensures r.Err? ==> r.error != [] && forall p :: p in r.error ==> p in RequiredPaths
    ensures r.Err? ==>
      ("user_id" in r.error <==> !Present(d.user_id)) && ("password" in r.error <==> !Present(d.password))
      && ("first_name" in r.error <==> !Present(d.first_name)) && ("last_name" in r.error <==> !Present(d.last_name))
  {
    var missing := MissingPaths(d);
    if missing != [] then Err(missing)
    else
      Ok(Account(
        d.user_id.value, d.user_name, d.user_email, d.phone_number, d.password.value,
        d.first_name.value, d.last_name.value,
        d.is_verified.GetOr(false), d.is_blocked.GetOr(false), d.is_deleted.GetOr(false)))
  }

  /** A document that leaves the three flags unset yields a record whose flags are all false. */
  lemma FlagsDefaultFalse(d: Document)
    requires d.is_verified.None? && d.is_blocked.None? && d.is_deleted.None?
    requires Create(d).Ok?
    ensures !Create(d).value.is_verified && !Create(d).value.is_blocked && !Create(d).value.is_deleted
  {
  }

  /** `user_name` and `user_email` are not required: dropping them never changes whether `create` succeeds. */
  lemma NameAndEmailOptional(d: Document)
    ensures Create(d).Ok? == Create(d.(user_name := None, user_email := None)).Ok?
  {
  }
}
