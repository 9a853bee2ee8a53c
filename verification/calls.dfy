/**
  The Call Executor: one POST to a synchronous endpoint, reduced to the status
  and result count it reports. The HTTP client is replaced by an abstract
  `Reply`; every way the client, `raise_for_status` or JSON decoding can fail
  is one of its shapes.
 */
module Calls {
  import opened Values

  /** The value of a response's `message` field. An `Object` records whether
      it carries an `errors` key (whatever its value) and its `results` field
      (`Present(n)` is a list of n results). `Other` is any other JSON value: a
      string, a list, a number or a boolean. The embedded-errors test
      `"errors" in message` is then a substring test on a string and an
      element test on a list (`mentionsErrors`), and raises on a number or a
      boolean (`mentionsErrors` is false). Reading `results` from it either
      raises or, when the value is falsy, reads the `{}` default, so it never
      yields results. */
  datatype Message =
    | Object(hasErrors: bool, results: Field<nat>)
    | Other(mentionsErrors: bool)

  /** The embedded-errors test holds of a message. */
  predicate MentionsErrors(m: Message) {
    match m
    case Object(hasErrors, _) => hasErrors
    case Other(mentionsErrors) => mentionsErrors
  }

  /** A decoded response body. `Undecodable` stands for a body that is not
      JSON, or JSON that is not an object (both make the code raise). */
  datatype Body = Undecodable | Document(message: Field<Message>)

  /** What the client produced: no response at all (connection failure,
      client timeout), or a response with an HTTP code and a body. */
  datatype Reply = NoResponse | Response(code: int, body: Body)

  /** The codes for which `raise_for_status` does not raise. */
  predicate IsSuccess(code: int) {
    200 <= code < 300
  }

  /** The length of the message's result list, where a missing or null
      message, a message that is not an object, and a missing or null result
      list all count as zero. */
  function ResultCount(message: Field<Message>): (n: nat)
    ensures n > 0 ==> message.Present? && message.value.Object? && message.value.results == Present(n)
    ensures message.Present? && message.value.Object? && message.value.results.Present? ==>
      n == message.value.results.value
  {
    match message
    case Present(Object(_, results)) => (match results case Present(k) => k case _ => 0)
    case _ => 0
  }

  /** The reply is a successful, decodable response. */
  predicate Delivered(reply: Reply) {
    reply.Response? && IsSuccess(reply.code) && reply.body.Document?
  }

  /** The lookup shared by the asynchronous batch lookup, the per-endpoint
      query lookup and the aggregator lookup: the status starts as the
      "timeout" sentinel, becomes the HTTP code once a response exists (even
      if `raise_for_status` then raises), and every caught fault leaves zero
      results. */
  function Execute(reply: Reply): (r: CallResult)
    ensures r.batch == None
    ensures r.status == Timeout <==> reply.NoResponse?
    ensures reply.Response? ==> r.status == HttpCode(reply.code)
    ensures !Delivered(reply) ==> r.numResults == 0
    ensures Delivered(reply) ==> r.numResults == ResultCount(reply.body.message)
  {
    match reply
    case NoResponse => CallResult(Timeout, 0, None)
    case Response(code, body) =>
      if !IsSuccess(code) then CallResult(HttpCode(code), 0, None)
      else match body
        case Undecodable => CallResult(HttpCode(code), 0, None)
        case Document(message) => CallResult(HttpCode(code), ResultCount(message), None)
  }

  /** Outcome of the synchronous batch lookup: a result, or the process exit
      taken when a successful body embeds `message.errors`. `exit()` raises
      `SystemExit`, which `except Exception` does not catch, so it is not
      downgraded to a result. */
  datatype Verdict = Finished(call: CallResult) | Fatal

  /** A 2xx decodable body whose message passes the embedded-errors test: an
      object holding an `errors` key, or a string or list mentioning it. */
  predicate EmbedsErrors(reply: Reply) {
    Delivered(reply) && reply.body.message.Present? && MentionsErrors(reply.body.message.value)
  }

  /** The synchronous batch lookup. A null `message` makes the `errors` test
      raise a `TypeError`, which is caught: zero results, like the other
      faults. */
  function ExecuteStrict(reply: Reply): (v: Verdict)
    ensures v.Fatal? <==> EmbedsErrors(reply)
    ensures v.Finished? ==> v.call == Execute(reply)
  {
    match reply
    case NoResponse => Finished(CallResult(Timeout, 0, None))
    case Response(code, body) =>
      if !IsSuccess(code) then Finished(CallResult(HttpCode(code), 0, None))
      else match body
        case Undecodable => Finished(CallResult(HttpCode(code), 0, None))
        case Document(message) =>
          match message
          case Absent => Finished(CallResult(HttpCode(code), 0, None))
          case Null => Finished(CallResult(HttpCode(code), 0, None))
          case Present(m) =>
            if MentionsErrors(m) then Fatal
            else Finished(CallResult(HttpCode(code), ResultCount(message), None))
  }

  /** A non-2xx response still reports its code, with zero results, even when
      the body would have carried results. */
  lemma ErrorCodeReported(code: int, body: Body)
    requires !IsSuccess(code)
    ensures Execute(Response(code, body)) == CallResult(HttpCode(code), 0, None)
    ensures ExecuteStrict(Response(code, body)) == Finished(CallResult(HttpCode(code), 0, None))
  {
  }

  /** The fatal test only looks at successful bodies: the same body behind a
      failing code is an ordinary zero-result call. */
  lemma FatalNeedsSuccess(code: int, n: nat)
    requires IsSuccess(code)
    ensures ExecuteStrict(Response(code, Document(Present(Object(true, Present(n)))))) == Fatal
    ensures ExecuteStrict(Response(500, Document(Present(Object(true, Present(n))))))
         == Finished(CallResult(HttpCode(500), 0, None))
    ensures Execute(Response(code, Document(Present(Object(true, Present(n))))))
         == CallResult(HttpCode(code), n, None)
  {
  }

  /** A message that is not an object never yields results. In the
      synchronous lookup, a string or list that mentions `errors` exits the
      process; any other such message is an ordinary zero-result call. */
  lemma NonObjectMessage(code: int, mentions: bool)
    requires IsSuccess(code)
    ensures Execute(Response(code, Document(Present(Other(mentions))))) == CallResult(HttpCode(code), 0, None)
    ensures ExecuteStrict(Response(code, Document(Present(Other(mentions))))) ==
      if mentions then Fatal else Finished(CallResult(HttpCode(code), 0, None))
  {
  }
}
