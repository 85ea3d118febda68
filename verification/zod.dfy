/**
 * The part of the schema-validation library that the two payload schemas use:
 * JSON values as the body parser delivers them, the issues a failed parse
 * reports, and the three field rules `z.string().min().max()`, `z.email()`
 * and `z.number().min()`.
 */
module Zod {
  import opened Wrappers

  /** A JSON value; the contents of arrays and nested objects are never inspected by the schemas. */
  datatype Value = Str(s: string) | Num(n: real) | Bool(b: bool) | Null | Composite

  /** A request body: a JSON object, or anything else (an array, say). */
  datatype Body = Obj(fields: map<string, Value>) | NotAnObject

  /** Property access `body.key`; `None` stands for `undefined`. */
  function Field(body: Body, key: string): Option<Value> {
    if body.Obj? && key in body.fields then Some(body.fields[key]) else None
  }

  datatype IssueCode = InvalidType | InvalidFormat | TooSmall | TooBig

  /** The text the schema supplies for an issue, or the library's own wording for that kind of issue. */
  datatype Message = Text(text: string) | Default(code: IssueCode)

  /** What one field rule reports before the object schema attaches the field's path. */
  datatype Problem = Problem(code: IssueCode, message: Message)

  datatype Issue = Issue(code: IssueCode, message: Message, path: seq<string>)

  /** A `.min(bound, message)` or `.max(bound, message)` check. */
  datatype Limit<T> = Limit(bound: T, message: Message)

  /** `z.string(typeMessage)` followed by the optional length checks `min` and `max`. */
  function StringProblem(v: Option<Value>, typeMessage: Message, min: Option<Limit<nat>>, max: Option<Limit<nat>>): Option<Problem> {
    if v.None? || !v.value.Str? then Some(Problem(InvalidType, typeMessage))
    else if min.Some? && |v.value.s| < min.value.bound then Some(Problem(TooSmall, min.value.message))
    else if max.Some? && |v.value.s| > max.value.bound then Some(Problem(TooBig, max.value.message))
    else None
  }

  /** `z.email(message)`: the message covers both a non-string and a malformed address. */
  function EmailProblem(v: Option<Value>, message: Message, isEmail: string -> bool): Option<Problem> {
    if v.None? || !v.value.Str? then Some(Problem(InvalidType, message))
    else if !isEmail(v.value.s) then Some(Problem(InvalidFormat, message))
    else None
  }

  /** `z.number(typeMessage)` followed by the optional inclusive lower bound `min`. */
  function NumberProblem(v: Option<Value>, typeMessage: Message, min: Option<Limit<real>>): Option<Problem> {
    if v.None? || !v.value.Num? then Some(Problem(InvalidType, typeMessage))
    else if min.Some? && v.value.n < min.value.bound then Some(Problem(TooSmall, min.value.message))
    else None
  }

  /** The issue an object schema reports for field `key`, if its rule found a problem. */
  function IssuesAt(key: string, p: Option<Problem>): seq<Issue> {
    if p.None? then [] else [Issue(p.value.code, p.value.message, [key])]
  }
}
