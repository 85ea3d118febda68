/** Flattening a failed parse's issues into the list the registration endpoint returns. */
module ZodErrorParser {
  import opened Wrappers
  import opened Zod

  /** One entry of the flattened list: the issue's message and its path's first segment (`undefined` for an empty path). */
  datatype FieldError = FieldError(message: Message, path: Option<string>)

  function FirstSegment(path: seq<string>): Option<string> {
    if path == [] then None else Some(path[0])
  }

  /** `ZodErrorParser`: one entry per issue, in the same order. */
  function Parse(issues: seq<Issue>): (errors: seq<FieldError>)
    ensures |errors| == |issues|
    ensures forall i :: 0 <= i < |issues| ==>
      errors[i].message == issues[i].message && errors[i].path == FirstSegment(issues[i].path)
  {
    if issues == [] then []
    else [FieldError(issues[0].message, FirstSegment(issues[0].path))] + Parse(issues[1..])
  }

  /** Flattening commutes with concatenation, so each issue is flattened independently of its neighbours. */
  lemma {:induction false} ParseAppend(a: seq<Issue>, b: seq<Issue>)
    ensures Parse(a + b) == Parse(a) + Parse(b)
  {
    if a == [] {
      assert a + b == b;
    } else {
      assert (a + b)[1..] == a[1..] + b;
      ParseAppend(a[1..], b);
    }
  }

  /** An issue at path `key` followed by any deeper segments yields an entry naming just `key`, with the issue's message. */
  lemma IssueYieldsEntry(issues: seq<Issue>, iss: Issue, key: string)
    requires iss in issues && |iss.path| > 0 && iss.path[0] == key
    ensures FieldError(iss.message, Some(key)) in Parse(issues)
  {
    var i :| 0 <= i < |issues| && issues[i] == iss;
    assert Parse(issues)[i] == FieldError(iss.message, Some(key));
  }

  /** Conversely, every entry naming `key` comes from an issue whose path starts with `key`. */
  lemma EntryComesFromIssue(issues: seq<Issue>, m: Message, key: string)
    requires FieldError(m, Some(key)) in Parse(issues)
    ensures exists iss :: iss in issues && |iss.path| > 0 && iss.path[0] == key && iss.message == m
  {
    var errors := Parse(issues);
    var i :| 0 <= i < |errors| && errors[i] == FieldError(m, Some(key));
    assert issues[i] in issues;
  }
}
