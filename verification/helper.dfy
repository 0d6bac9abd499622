/**
 * The response envelope `{status, message, data}` every endpoint answers with,
 * and the offset arithmetic of `paginate_query`.
 */
module Helper {

  /** The `data` field: `None`, the empty object the exception handlers send, or a payload. */
  datatype Body<+D> = Null | EmptyObject | Payload(value: D)

  datatype Envelope<+D> = Envelope(status: int, message: string, data: Body<D>)

  /**
   * What goes over the wire: the HTTP status and the JSON envelope, or the bare
   * `{"detail": ...}` body FastAPI's own security classes answer with.
   */
  datatype Response<+D> = Json(http: int, envelope: Envelope<D>) | Detail(http: int, detail: string)

  function SuccessResponse<D>(status: int, message: string, data: Body<D> := Null): (e: Envelope<D>)
    ensures e.status == status && e.message == message && e.data == data
  {
    Envelope(status, message, data)
  }

  function ErrorResponse<D>(status: int, message: string, data: Body<D> := Null): (e: Envelope<D>)
    ensures e.status == status && e.message == message && e.data == data
  {
    Envelope(status, message, data)
  }

  /** Success and error envelopes have one and the same shape; `data` defaults to `None`. */
  lemma SameShape<D>(status: int, message: string, data: Body<D>)
    ensures SuccessResponse(status, message, data) == ErrorResponse(status, message, data)
    ensures SuccessResponse<D>(status, message).data == Null
    ensures ErrorResponse<D>(status, message).data == Null
  {
  }

  /**
   * A handler that returns the envelope dict (rather than raising) is answered
   * with HTTP 200, whatever the envelope's own `status` says.
   */
  function Returned<D>(e: Envelope<D>): (r: Response<D>)
    ensures r.Json? && r.http == 200 && r.envelope == e
  {
    Json(200, e)
  }

  /** The number of rows `paginate_query` skips: `(page - 1) * limit`. */
  function Offset(page: int, limit: int): (offset: nat)
    requires page >= 1 && limit >= 1
    ensures offset < page * limit
  {
    MulNonNegative(page - 1, limit);
    (page - 1) * limit
  }

  lemma MulNonNegative(a: nat, b: nat)
    ensures a * b >= 0
  {
  }

  /** At most `limit` rows of `query` starting at row `offset`. */
  function Window<T>(query: seq<T>, offset: nat, limit: nat): (w: seq<T>)
    ensures offset >= |query| ==> w == []
    ensures offset < |query| ==> |w| == if |query| - offset < limit then |query| - offset else limit
    ensures forall j :: 0 <= j < |w| ==> offset + j < |query| && w[j] == query[offset + j]
  {
    if offset >= |query| then []
    else if |query| - offset <= limit then query[offset..]
    else query[offset..offset + limit]
  }

  /**
   * `paginate_query`: skip `(page - 1) * limit` rows, keep at most `limit`, and
   * count the whole query.  Returns (items, total).
   */
  function PaginateQuery<T>(query: seq<T>, page: int, limit: int): (r: (seq<T>, nat))
    requires page >= 1 && limit >= 1
    ensures r.1 == |query|
    ensures r.0 == Window(query, Offset(page, limit), limit)
    ensures |r.0| <= limit
  {
    (Window(query, Offset(page, limit), limit), |query|)
  }

  /** Decimal digits of a natural number, as f-strings render it. */
  function Decimal(n: nat): (s: string)
    ensures |s| >= 1
    ensures forall i :: 0 <= i < |s| ==> '0' <= s[i] <= '9'
  {
    var d := [('0' as int + n % 10) as char];
    if n < 10 then d else Decimal(n / 10) + d
  }
}
