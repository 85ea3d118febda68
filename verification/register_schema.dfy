/** The registration payload schema: six field rules on one JSON object. */
module RegisterSchema {
  import opened Wrappers
  import opened Zod

  const UserNameTypeMessage := Text("user name must be a string")
  const UserNameLengthMessage := Text("user name should be 4 char long")
  const EmailMessage := Text("email is required")

  /** The schema's fields, in the order it declares (and reports) them. */
  const FieldOrder: seq<string> := ["user_name", "user_email", "phone_no", "password", "first_name", "last_name"]

  /** A parsed payload. Keys outside the schema are stripped. */
  datatype Registration = Registration(
    user_name: string,
    user_email: string,
    phone_no: real,
    password: string,
    first_name: string,
    last_name: string)

  // The six rules in plain words.

  predicate UserNameOk(v: Option<Value>) {
    v.Some? && v.value.Str? && 4 <= |v.value.s| <= 10
  }

  predicate EmailOk(v: Option<Value>, isEmail: string -> bool) {
    v.Some? && v.value.Str? && isEmail(v.value.s)
  }

  /** A bound on the number's value, not on its count of digits. */
  predicate PhoneOk(v: Option<Value>) {
    v.Some? && v.value.Num? && v.value.n >= 10.0
  }

  predicate PasswordOk(v: Option<Value>) {
    v.Some? && v.value.Str? && |v.value.s| >= 8
  }

  predicate NameOk(v: Option<Value>) {
    v.Some? && v.value.Str? && |v.value.s| >= 3
  }

  /** The rule that governs field `key`; keys outside the schema carry none. */
  predicate FieldOk(key: string, body: Body, isEmail: string -> bool) {
    var v := Field(body, key);
    if key == "user_name" then UserNameOk(v)
    else if key == "user_email" then EmailOk(v, isEmail)
    else if key == "phone_no" then PhoneOk(v)
    else if key == "password" then PasswordOk(v)
    else if key == "first_name" || key == "last_name" then NameOk(v)
    else true
  }

  /** A payload is accepted when it is an object and all six rules hold. */
  predicate Accepts(body: Body, isEmail: string -> bool) {
    body.Obj?
    && UserNameOk(Field(body, "user_name"))
    && EmailOk(Field(body, "user_email"), isEmail)
    && PhoneOk(Field(body, "phone_no"))
    && PasswordOk(Field(body, "password"))
    && NameOk(Field(body, "first_name"))
    && NameOk(Field(body, "last_name"))
  }

  /** The schema's declaration of field `key`, written with the library's rules. */
  function FieldProblem(key: string, body: Body, isEmail: string -> bool): (p: Option<Problem>)
    ensures key in FieldOrder ==> (p.None? <==> FieldOk(key, body, isEmail))
    ensures key !in FieldOrder ==> p.None?
  {
    var v := Field(body, key);
    if key == "user_name" then
      StringProblem(v, UserNameTypeMessage, Some(Limit(4, UserNameLengthMessage)), Some(Limit(10, Default(TooBig))))
    else if key == "user_email" then
      EmailProblem(v, EmailMessage, isEmail)
    else if key == "phone_no" then
      NumberProblem(v, Default(InvalidType), Some(Limit(10.0, Default(TooSmall))))
    else if key == "password" then
      StringProblem(v, Default(InvalidType), Some(Limit(8, Default(TooSmall))), None)
    else if key == "first_name" || key == "last_name" then
      StringProblem(v, Default(InvalidType), Some(Limit(3, Default(TooSmall))), None)
    else None
  }

  /** The issue reported for field `key`, if any. */
  function FieldIssues(key: string, body: Body, isEmail: string -> bool): seq<Issue> {
    IssuesAt(key, FieldProblem(key, body, isEmail))
  }

  /** The keys among `keys` whose plain-words rule fails, in their order in `keys`. */
  function Violated(keys: seq<string>, body: Body, isEmail: string -> bool): seq<string> {
    if keys == [] then []
    else (if FieldOk(keys[0], body, isEmail) then [] else [keys[0]]) + Violated(keys[1..], body, isEmail)
  }

  /** A field has an issue, at its own path, exactly when its plain-words rule fails. */
  lemma FieldIssuesFollowRule(key: string, body: Body, isEmail: string -> bool)
    ensures var ks := if FieldOk(key, body, isEmail) then [] else [key];
      |FieldIssues(key, body, isEmail)| == |ks|
      && forall i :: 0 <= i < |ks| ==> FieldIssues(key, body, isEmail)[i].path == [ks[i]]
  {
  }

  /** Issues whose paths are the singletons of `ka` and `kb` concatenate to issues whose paths are those of `ka + kb`. */
  lemma PathsConcat(a: seq<Issue>, b: seq<Issue>, ka: seq<string>, kb: seq<string>)
    requires |a| == |ka| && forall i :: 0 <= i < |a| ==> a[i].path == [ka[i]]
    requires |b| == |kb| && forall i :: 0 <= i < |b| ==> b[i].path == [kb[i]]
    ensures |a + b| == |ka + kb| && forall i :: 0 <= i < |a + b| ==> (a + b)[i].path == [(ka + kb)[i]]
  {
    forall i | 0 <= i < |a + b| ensures (a + b)[i].path == [(ka + kb)[i]] {
      if i < |a| {
        assert (a + b)[i] == a[i] && (ka + kb)[i] == ka[i];
      } else {
        assert (a + b)[i] == b[i - |a|] && (ka + kb)[i] == kb[i - |a|];
      }
    }
  }

  /**
   * The object schema runs every field's rule, in declaration order, and
   * collects one issue per failing field.
   */
  function ObjectIssues(keys: seq<string>, body: Body, isEmail: string -> bool): (r: seq<Issue>)
    ensures r == [] <==> forall k :: k in keys ==> FieldProblem(k, body, isEmail).None?
    ensures |r| == |Violated(keys, body, isEmail)|
    ensures forall i :: 0 <= i < |r| ==> r[i].path == [Violated(keys, body, isEmail)[i]]
    ensures forall k :: k in keys && FieldProblem(k, body, isEmail).Some? ==>
      Issue(FieldProblem(k, body, isEmail).value.code, FieldProblem(k, body, isEmail).value.message, [k]) in r
    ensures forall iss :: iss in r ==>
      |iss.path| == 1 && iss.path[0] in keys && FieldProblem(iss.path[0], body, isEmail) == Some(Problem(iss.code, iss.message))
  {
    if keys == [] then []
    else
      var head := FieldIssues(keys[0], body, isEmail);
      var rest := ObjectIssues(keys[1..], body, isEmail);
      FieldIssuesFollowRule(keys[0], body, isEmail);
      PathsConcat(head, rest, if FieldOk(keys[0], body, isEmail) then [] else [keys[0]], Violated(keys[1..], body, isEmail));
      head + rest
  }

  /** Every issue a parse of `body` reports; a body that is not an object gets one issue with an empty path. */
  function Issues(body: Body, isEmail: string -> bool): seq<Issue> {
    if body.NotAnObject? then [Issue(InvalidType, Default(InvalidType), [])]
    else ObjectIssues(FieldOrder, body, isEmail)
  }

  /** The object schema reads only the declared fields: payloads that agree on them get the same issues. */
  lemma {:induction false} ObjectIssuesReadOnlyKeys(keys: seq<string>, a: Body, b: Body, isEmail: string -> bool)
    requires forall k :: k in keys ==> Field(a, k) == Field(b, k)
    ensures ObjectIssues(keys, a, isEmail) == ObjectIssues(keys, b, isEmail)
  {
    if keys != [] {
      assert Field(a, keys[0]) == Field(b, keys[0]);
      assert FieldIssues(keys[0], a, isEmail) == FieldIssues(keys[0], b, isEmail);
      ObjectIssuesReadOnlyKeys(keys[1..], a, b, isEmail);
      assert ObjectIssues(keys, a, isEmail) == FieldIssues(keys[0], a, isEmail) + ObjectIssues(keys[1..], a, isEmail);
      assert ObjectIssues(keys, b, isEmail) == FieldIssues(keys[0], b, isEmail) + ObjectIssues(keys[1..], b, isEmail);
    }
  }

  /** Acceptance is exactly "every declared field keeps its rule". */
  lemma AcceptsIffEveryFieldOk(body: Body, isEmail: string -> bool)
    requires body.Obj?
    ensures Accepts(body, isEmail) <==> forall k :: k in FieldOrder ==> FieldOk(k, body, isEmail)
  {
    if forall k :: k in FieldOrder ==> FieldOk(k, body, isEmail) {
      assert FieldOk("user_name", body, isEmail) && FieldOk("user_email", body, isEmail);
      assert FieldOk("phone_no", body, isEmail) && FieldOk("password", body, isEmail);
      assert FieldOk("first_name", body, isEmail) && FieldOk("last_name", body, isEmail);
    }
    if Accepts(body, isEmail) {
      forall k | k in FieldOrder ensures FieldOk(k, body, isEmail) {
      }
    }
  }

  lemma NoIssuesIffAccepted(body: Body, isEmail: string -> bool)
    ensures Issues(body, isEmail) == [] <==> Accepts(body, isEmail)
  {
    if body.Obj? {
      AcceptsIffEveryFieldOk(body, isEmail);
      assert Issues(body, isEmail) == [] <==> forall k :: k in FieldOrder ==> FieldProblem(k, body, isEmail).None?;
    }
  }

  /** `registerSchema.parse`: the typed payload, or every issue found. */
  function Parse(body: Body, isEmail: string -> bool): (r: Result<Registration, seq<Issue>>)
    ensures r.Ok? <==> Accepts(body, isEmail)
    ensures r.Err? ==> r.error == Issues(body, isEmail) && r.error != []
    ensures r.Ok? ==>
      Field(body, "user_name") == Some(Str(r.value.user_name))
      && Field(body, "user_email") == Some(Str(r.value.user_email))
      && Field(body, "phone_no") == Some(Num(r.value.phone_no))
      && Field(body, "password") == Some(Str(r.value.password))
      && Field(body, "first_name") == Some(Str(r.value.first_name))
      && Field(body, "last_name") == Some(Str(r.value.last_name))
  {
    var issues := Issues(body, isEmail);
    NoIssuesIffAccepted(body, isEmail);
    if issues != [] then Err(issues)
    else
      Ok(Registration(
        Field(body, "user_name").value.s,
        Field(body, "user_email").value.s,
        Field(body, "phone_no").value.n,
        Field(body, "password").value.s,
        Field(body, "first_name").value.s,
        Field(body, "last_name").value.s))
  }

  /** Keys outside the schema are stripped: two object payloads that agree on the six declared fields parse alike. */
  lemma ParseStripsUndeclaredKeys(a: Body, b: Body, isEmail: string -> bool)
    requires a.Obj? && b.Obj?
    requires forall k :: k in FieldOrder ==> Field(a, k) == Field(b, k)
    ensures Parse(a, isEmail) == Parse(b, isEmail)
  {
    ObjectIssuesReadOnlyKeys(FieldOrder, a, b, isEmail);
    assert "user_name" in FieldOrder && "user_email" in FieldOrder && "phone_no" in FieldOrder;
    assert "password" in FieldOrder && "first_name" in FieldOrder && "last_name" in FieldOrder;
  }

  /** A field that breaks its rule is named by an issue of its own, and only such fields are. */
  lemma IssuesNameExactlyViolatedFields(body: Body, isEmail: string -> bool, key: string)
    requires body.Obj?
    ensures (exists iss :: iss in Issues(body, isEmail) && iss.path == [key]) <==> key in FieldOrder && !FieldOk(key, body, isEmail)
  {
    var issues := Issues(body, isEmail);
    if key in FieldOrder && !FieldOk(key, body, isEmail) {
      var p := FieldProblem(key, body, isEmail);
      assert Issue(p.value.code, p.value.message, [key]) in issues;
    }
    if exists iss :: iss in issues && iss.path == [key] {
      var iss :| iss in issues && iss.path == [key];
      assert iss.path[0] == key;
    }
  }

  /** A user name that is not a string, too short or too long is reported with the schema's own wording. */
  lemma UserNameIssueMessages(body: Body, isEmail: string -> bool)
    requires body.Obj?
    ensures var v := Field(body, "user_name");
      (v.None? || !v.value.Str? ==> Issue(InvalidType, UserNameTypeMessage, ["user_name"]) in Issues(body, isEmail))
      && (v.Some? && v.value.Str? && |v.value.s| < 4 ==> Issue(TooSmall, UserNameLengthMessage, ["user_name"]) in Issues(body, isEmail))
      && (v.Some? && v.value.Str? && |v.value.s| > 10 ==> Issue(TooBig, Default(TooBig), ["user_name"]) in Issues(body, isEmail))
  {
    assert "user_name" in FieldOrder;
  }

  /** A missing, non-string or malformed address is reported as "email is required". */
  lemma EmailIssueMessage(body: Body, isEmail: string -> bool)
    requires body.Obj? && !EmailOk(Field(body, "user_email"), isEmail)
    ensures exists code :: Issue(code, EmailMessage, ["user_email"]) in Issues(body, isEmail)
  {
    assert "user_email" in FieldOrder;
    var p := FieldProblem("user_email", body, isEmail);
    assert Issue(p.value.code, EmailMessage, ["user_email"]) in Issues(body, isEmail);
  }

  /**
   * The phone rule reads the field as a number and bounds its value: a
   * number of at least 10 raises no issue, a smaller number is too small,
   * and anything else (a string of digits included) has the wrong type.
   */
  lemma PhoneIssues(body: Body, isEmail: string -> bool)
    requires body.Obj?
    ensures var v := Field(body, "phone_no");
      (v.None? || !v.value.Num? ==> Issue(InvalidType, Default(InvalidType), ["phone_no"]) in Issues(body, isEmail))
      && (v.Some? && v.value.Num? && v.value.n < 10.0 ==> Issue(TooSmall, Default(TooSmall), ["phone_no"]) in Issues(body, isEmail))
      && (v.Some? && v.value.Num? && v.value.n >= 10.0 <==> forall iss :: iss in Issues(body, isEmail) ==> iss.path != ["phone_no"])
  {
    assert "phone_no" in FieldOrder;
    IssuesNameExactlyViolatedFields(body, isEmail, "phone_no");
  }
}
