/** One benchmark request, as `makeRequest` (bench.ts:123-173) reduces it to
    a `RequestResult` record. The fetch, its abort timer and the clock are
    not modelled: what the network did is an input, either a response that
    arrived (its status and the byte length of its body), or an exception
    thrown by `fetch` or by reading the body (its message), together with
    the measured elapsed time. */
module Request {

  datatype Option<T> = None | Some(value: T)

  /** What the network produced for one request. */
  datatype Reply =
    | Response(status: nat, byteLength: nat)
    | Thrown(message: string)

  /** A reply and the milliseconds that passed from issuing the request to
      the end of the body or failure (`endTime - startTime`). */
  datatype Exchange = Exchange(reply: Reply, elapsed: real)

  /** The `RequestResult` interface (bench.ts:88-94); `error?` is an option. */
  datatype RequestResult = RequestResult(
    success: bool,
    time: real,
    status: nat,
    bytes: nat,
    error: Option<string>)

  /** `Response.ok`: the status is in the range 200 to 299, the ok status of
      section 2.2.3 (Statuses) of the WHATWG Fetch Standard. */
  predicate IsOkStatus(status: int)
  {
    200 <= status <= 299
  }

  /** `makeRequest`: a response becomes a record carrying its real status and
      byte count, successful exactly for an ok status and without an error;
      a thrown error becomes a failed record with status 0, no bytes and the
      message. The elapsed time is kept in both cases. */
  function MakeRequest(e: Exchange): (r: RequestResult)
    ensures r.time == e.elapsed
    ensures e.reply.Thrown? ==>
              !r.success && r.status == 0 && r.bytes == 0 && r.error == Some(e.reply.message)
    ensures e.reply.Response? ==>
              && (r.success <==> 200 <= e.reply.status <= 299)
              && r.status == e.reply.status && r.bytes == e.reply.byteLength && r.error == None
  {
    match e.reply
    case Response(status, byteLength) =>
      RequestResult(IsOkStatus(status), e.elapsed, status, byteLength, None)
    case Thrown(message) =>
      RequestResult(false, e.elapsed, 0, 0, Some(message))
  }

  /** The records `makeRequest` can produce: an error only on a failed,
      response-less record, and otherwise success exactly for an ok status. */
  predicate WellFormed(r: RequestResult)
  {
    && (r.error.Some? ==> !r.success && r.status == 0 && r.bytes == 0)
    && (r.error.None? ==> r.success == IsOkStatus(r.status))
  }

  /** The reply a well-formed record came from. */
  function ReplyOf(r: RequestResult): Reply
  {
    if r.error.Some? then Thrown(r.error.value) else Response(r.status, r.bytes)
  }

  /** Every record `makeRequest` produces is well formed, and the reply can
      be read back from it: no information about the reply is lost. */
  lemma MakeRequestIsInvertible(e: Exchange)
    ensures WellFormed(MakeRequest(e))
    ensures ReplyOf(MakeRequest(e)) == e.reply
  {
  }

  /** Conversely, every well-formed record is what `makeRequest` makes of
      the reply read back from it, so `WellFormed` describes exactly the
      records `makeRequest` can return. */
  lemma WellFormedIsMade(r: RequestResult)
    requires WellFormed(r)
    ensures MakeRequest(Exchange(ReplyOf(r), r.time)) == r
  {
  }

  /** A response that arrives with a status other than 0 is told apart from
      one that never arrived: the first keeps its status and has no error,
      the second has status 0 and an error. */
  lemma AnsweredVersusUnanswered(e: Exchange)
    ensures e.reply.Response? && e.reply.status != 0 ==>
              MakeRequest(e).status != 0 && MakeRequest(e).error.None?
    ensures e.reply.Thrown? ==> MakeRequest(e).status == 0 && MakeRequest(e).error.Some?
  {
  }
}
