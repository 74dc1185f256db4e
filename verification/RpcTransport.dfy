/** The client side of a remote call: one attempt, and one more for what may pass. */
module RpcTransport {
  import opened Options
  import opened JsText

  type Output(==, !new, 0)

  /** What came back from one request. A body that is not JSON is None. */
  datatype Wire =
    | NetworkError(aborted: bool)
    | Response(status: nat, body: Option<Body>)

  datatype Body = Body(output: Output, permission: Option<Text>, detail: Option<Text>)

  datatype Error =
    | ModuleUnavailable
    | RpcTimeout
    | RpcForbidden(permission: Text)
    | RpcInvalidArgument
    | RpcInternal(status: nat, detail: Text)
    | Unparsed

  datatype Result = Answer(output: Output) | Thrown(error: Error)

  predicate IsOk(status: nat) {
    200 <= status < 300
  }

  function OrDefault(field: Option<Text>, fallback: Text): Text {
    if field.Some? then field.value else fallback
  }

  /** One attempt. */
  function Attempt(w: Wire): Result {
    match w
    case NetworkError(aborted) => Thrown(if aborted then RpcTimeout else ModuleUnavailable)
    case Response(status, body) =>
      if IsOk(status) then if body.Some? then Answer(body.value.output) else Thrown(Unparsed)
      else if status == 401 then Thrown(ModuleUnavailable)
      else if status == 403 then
        Thrown(RpcForbidden(OrDefault(if body.Some? then body.value.permission else None, Lit("unknown"))))
      else if status == 400 then Thrown(RpcInvalidArgument)
      else if status in {502, 503, 504} then Thrown(ModuleUnavailable)
      else Thrown(RpcInternal(status, OrDefault(if body.Some? then body.value.detail else None, Lit("no detail"))))
  }

  /** What may pass: the peer was not reached, did not answer in time, or is not ready. */
  predicate Transient(w: Wire) {
    w.NetworkError? || w.status in {401, 502, 503, 504}
  }

  /** The `Idempotency-Key` header of a request, if it has one. */
  datatype Request = Request(idempotencyKey: Option<Text>)

  /** `key && { "Idempotency-Key": key }`: an empty key is no header. */
  function HeaderOf(key: Option<Text>): Option<Text> {
    if key.Some? && key.value != [] then key else None
  }

  /** `first` and `second` are what `fetch` gives for a first and a second request; `sent` are
      the requests made. */
  method CallRemote(first: Wire, second: Wire, idempotencyKey: Option<Text>) returns (r: Result, sent: seq<Request>)
    ensures |sent| == if Transient(first) then 2 else 1
    ensures forall q | q in sent :: q.idempotencyKey == HeaderOf(idempotencyKey)
    ensures r == FinalOutcome(if Transient(first) then second else first)
    ensures var again := first.NetworkError? || first.status in {401, 502, 503, 504};
            var last := if again then second else first;
            && |sent| == (if again then 2 else 1)
            && (last.NetworkError? ==> r == Thrown(ModuleUnavailable))
            && (last.Response? ==>
                  var status, body := last.status, last.body;
                  && (200 <= status <= 299 && body.Some? ==> r == Answer(body.value.output))
                  && (200 <= status <= 299 && body.None? ==> r == Thrown(Unparsed))
                  && (status in {401, 502, 503, 504} ==> r == Thrown(ModuleUnavailable))
                  && (status == 403 ==>
                        r == Thrown(RpcForbidden(if body.Some? && body.value.permission.Some?
                                                 then body.value.permission.value else Lit("unknown"))))
                  && (status == 400 ==> r == Thrown(RpcInvalidArgument))
                  && (!(200 <= status <= 299) && status !in {400, 401, 403, 502, 503, 504} ==>
                        r == Thrown(RpcInternal(status, if body.Some? && body.value.detail.Some?
                                                        then body.value.detail.value else Lit("no detail")))))
    ensures r == Thrown(ModuleUnavailable) <==> Transient(first) && Transient(second)
    ensures r != Thrown(RpcTimeout)
  {
    r := Attempt(first);
    var headers := Request(if idempotencyKey == Some([]) then None else idempotencyKey);
    sent := [headers];
    TransientMeansRetryable(first);
    if r.Answer? || !Retryable(r.error) { return; }
    r := Attempt(second);
    sent := sent + [headers];
    if r == Thrown(RpcTimeout) { r := Thrown(ModuleUnavailable); }
  }

  /** `err instanceof ModuleUnavailable || err instanceof RpcTimeout` */
  predicate Retryable(e: Error) {
    e.ModuleUnavailable? || e.RpcTimeout?
  }

  /** What the caller sees of the last answer from the peer. */
  function FinalOutcome(w: Wire): Result {
    if Transient(w) then Thrown(ModuleUnavailable) else Attempt(w)
  }

  /** The errors that are tried again are exactly those of passing conditions; a timeout is
      never seen by the caller, and an answer that is not JSON is not tried again. */
  lemma TransientMeansRetryable(w: Wire)
    ensures Transient(w) <==> Attempt(w).Thrown? && Retryable(Attempt(w).error)
  {
  }
}
