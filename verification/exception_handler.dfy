/**
 * The application's exception handlers: each kind of exception a route or a
 * dependency can raise becomes one JSON envelope with a fixed HTTP status.
 */
module ExceptionHandler {
  import opened Helper

  /** One entry of a request validation error: its location path and message. */
  datatype Issue = Issue(loc: seq<string>, msg: string)

  /**
   * What a request can raise.  The custom exceptions carry the status they were
   * raised with, which the handlers may or may not use.
   */
  datatype Raised =
    | RequestValidation(issues: seq<Issue>)
    | ApiKeyError(status: int, message: string)
    | JwtError(status: int, message: string)
    | Unauthorized(status: int, message: string)
    | HttpError(status: int, detail: string)
    | Unexpected

  /** Every validation issue has a non-empty location, as the validator reports them. */
  predicate WellFormed(e: Raised)
  {
    e.RequestValidation? ==> forall i :: 0 <= i < |e.issues| ==> |e.issues[i].loc| > 0
  }

  /** "<last element of loc>: <msg>" */
  function IssueText(i: Issue): (t: string)
    requires |i.loc| > 0
    ensures t == i.loc[|i.loc| - 1] + ": " + i.msg
  {
    i.loc[|i.loc| - 1] + ": " + i.msg
  }

  function IssueTexts(issues: seq<Issue>): (ts: seq<string>)
    requires forall i :: 0 <= i < |issues| ==> |issues[i].loc| > 0
    ensures |ts| == |issues|
    ensures forall i :: 0 <= i < |issues| ==> ts[i] == IssueText(issues[i])
  {
    seq(|issues|, i requires 0 <= i < |issues| => IssueText(issues[i]))
  }

  /** `"; ".join(parts)` */
  function Join(parts: seq<string>): string
  {
    if |parts| == 0 then ""
    else if |parts| == 1 then parts[0]
    else Join(parts[..|parts| - 1]) + "; " + parts[|parts| - 1]
  }

  /** Joining one more part appends the separator and the part, in order. */
  lemma {:induction false} JoinSnoc(parts: seq<string>, p: string)
    requires |parts| > 0
    ensures Join(parts + [p]) == Join(parts) + "; " + p
  {
    assert (parts + [p])[..|parts|] == parts;
  }

  function TotalLength(parts: seq<string>): nat
  {
    if |parts| == 0 then 0 else TotalLength(parts[..|parts| - 1]) + |parts[|parts| - 1]|
  }

  /** The joined message is every part plus one two-character separator between neighbours. */
  lemma {:induction false} JoinLength(parts: seq<string>)
    requires |parts| > 0
    ensures |Join(parts)| == TotalLength(parts) + 2 * (|parts| - 1)
  {
    if |parts| > 1 {
      JoinLength(parts[..|parts| - 1]);
    } else {
      assert parts[..0] == [];
    }
  }

  /**
   * The registered handlers.  Validation errors become 400 with the joined
   * messages; API-key and JWT exceptions become 401 whatever status they were
   * raised with; unauthorized becomes 403; the framework's own HTTP errors keep
   * their `{"detail": ...}` body; everything else becomes 500.
   */
  function Handle<D>(e: Raised): (r: Response<D>)
    requires WellFormed(e)
    ensures e.HttpError? <==> r.Detail?
    ensures e.HttpError? ==> r == Detail(e.status, e.detail)
    ensures r.Json? ==> r.http == r.envelope.status && r.envelope.data == EmptyObject
    ensures e.RequestValidation? ==>
      r.http == 400 && r.envelope.message == Join(IssueTexts(e.issues))
    ensures (e.ApiKeyError? || e.JwtError?) ==> r.http == 401 && r.envelope.message == e.message
    ensures e.Unauthorized? ==> r.http == 403 && r.envelope.message == e.message
    ensures e.Unexpected? ==> r.http == 500 && r.envelope.message == "Something went wrong!"
  {
    match e
    case RequestValidation(issues) => Json(400, Envelope(400, Join(IssueTexts(issues)), EmptyObject))
    case ApiKeyError(_, message) => Json(401, Envelope(401, message, EmptyObject))
    case JwtError(_, message) => Json(401, Envelope(401, message, EmptyObject))
    case Unauthorized(_, message) => Json(403, Envelope(403, message, EmptyObject))
    case HttpError(status, detail) => Detail(status, detail)
    case Unexpected => Json(500, Envelope(500, "Something went wrong!", EmptyObject))
  }

  /** The status an exception was raised with never reaches the client. */
  lemma RaisedStatusIgnored<D>(s: int, t: int, message: string)
    ensures Handle<D>(ApiKeyError(s, message)) == Handle<D>(ApiKeyError(t, message))
    ensures Handle<D>(JwtError(s, message)) == Handle<D>(JwtError(t, message))
    ensures Handle<D>(Unauthorized(s, message)) == Handle<D>(Unauthorized(t, message))
  {
  }

  /**
   * A field whose length is outside `[lo, hi]` yields one validation issue at
   * `["body", field]`, worded as the request-body validator words it.
   */
  function LengthIssues(field: string, value: string, lo: nat, hi: nat): (r: seq<Issue>)
    ensures |r| <= 1
    ensures r == [] <==> lo <= |value| <= hi
    ensures forall i :: 0 <= i < |r| ==> r[i].loc == ["body", field]
  {
    if |value| < lo then
      [Issue(["body", field], "String should have at least " + Decimal(lo) + " characters")]
    else if |value| > hi then
      [Issue(["body", field], "String should have at most " + Decimal(hi) + " characters")]
    else []
  }
}
