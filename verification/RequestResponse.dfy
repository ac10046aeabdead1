/** The request handler that answers its caller: sender extraction, error wrapping and response publishing. */
module RequestResponse {
  import opened Basics
  import opened Headers
  import opened GoErrors
  import opened Naming
  import Publishing
  import P = ConfirmProtocol

  /** sendingService: the `service` header, if it is a string. */
  function SendingService(headers: Table): Option<string> {
    if SERVICE in headers && headers[SERVICE].Str? then Some(headers[SERVICE].s) else None
  }

  /** The message Connection.PublishServiceResponse sends on behalf of `service`, if it gets that far. */
  function Response(service: string, target: string, routingKey: string, body: Option<string>, env: Publishing.Env)
    : Option<Publishing.Message>
  {
    if body.None? || env.sendFails then None
    else
      var headers := ResponseHeaders(service, target, routingKey, env);
      Some(Publishing.Message(ResponseExchange(service), routingKey, headers, body.value))
  }

  function ResponseHeaders(service: string, target: string, routingKey: string, env: Publishing.Env): Table {
    Publishing.WireHeaders(map[SERVICE := Str(target)], routingKey, service, env)
  }

  /** msg is a response of `service` to `target`. */
  predicate Answers(msg: Publishing.Message, service: string, target: string, routingKey: string) {
    && msg.exchange == ResponseExchange(service) && msg.key == routingKey
    && SERVICE in msg.headers && msg.headers[SERVICE] == Str(target)
  }

  /** An attribute the response's only header does not give has its default. */
  lemma ResponseAttr(service: string, target: string, routingKey: string, env: Publishing.Env, attr: string)
    requires Publishing.PlainCarrier(env) && (attr == "source" || attr == "type")
    ensures
      var wire, key := ResponseHeaders(service, target, routingKey, env), "cloudEvents:" + attr;
      key in wire && wire[key] == Str(if attr == "source" then service else routingKey)
  {
    var all := [Header(SERVICE, Str(target))];
    OnlyHeader(Header(SERVICE, Str(target)));
    AttrKeys(attr);
    Publishing.WireAttr(map[SERVICE := Str(target)], all, routingKey, service, env, attr);
    DefaultExpected(all, attr, routingKey, service, env);
  }

  lemma DefaultExpected(all: seq<Header>, attr: string, routingKey: string, service: string, env: Publishing.Env)
    requires LastWrite(all, WireKey(attr)) == None && LastWrite(all, CeKey(attr)) == None
    requires attr == "source" || attr == "type"
    ensures Publishing.ExpectedAttr(all, attr, routingKey, service, env)
         == Some(Str(if attr == "source" then service else routingKey))
  {
    assert attr[0] != 'i' && "id"[0] == 'i' && "specversion"[1] == 'p' && "source"[1] == 'o';
  }

  lemma OnlyHeader(h: Header)
    ensures HoldsLastWrites(map[h.key := h.value], [h])
    ensures forall k :: k != h.key ==> LastWrite([h], k) == None
  {
    assert [h][..0] == [];
  }

  lemma AttrKeys(attr: string)
    ensures WireKey(attr) == "cloudEvents:" + attr && WireKey(attr) != SERVICE && CeKey(attr) != SERVICE
  {
    assert SERVICE[0] == 's' && WireKey(attr)[0] == 'c' && CeKey(attr)[0] == 'c';
  }

  /** A response carries the body it was given and, unless the trace carrier overwrites them, names its service as
      the source and its routing key as the type. */
  lemma ResponseContent(service: string, target: string, routingKey: string, body: Option<string>, env: Publishing.Env,
                        msg: Publishing.Message, attr: string)
    requires Response(service, target, routingKey, body, env) == Some(msg)
    requires Publishing.PlainCarrier(env) && (attr == "source" || attr == "type")
    ensures Some(msg.body) == body
    ensures
      var key := "cloudEvents:" + attr;
      key in msg.headers && msg.headers[key] == Str(if attr == "source" then service else routingKey)
  {
    assert msg.headers == ResponseHeaders(service, target, routingKey, env);
    ResponseAttr(service, target, routingKey, env, attr);
  }

  /** A response carries the target's name in its `service` header, unless the trace carrier overwrites it. */
  lemma ResponseIsAddressed(service: string, target: string, routingKey: string, body: Option<string>,
                            env: Publishing.Env)
    requires body.Some? && !env.sendFails
    ensures Response(service, target, routingKey, body, env).Some?
    ensures Answers(Response(service, target, routingKey, body, env).value, service, target, routingKey)
            <==> (SERVICE in env.carrier ==> env.carrier[SERVICE] == target)
  {
    var table: Table := map[SERVICE := Str(target)];
    assert SERVICE[0] == 's' && CE[0] == 'c' && WIRE[0] == 'c';
    assert SERVICE in NormalKeys(table);
    Publishing.StampedElsewhere(Normalized(table), routingKey, service, env, SERVICE);
  }

  /** Connection.PublishServiceResponse by `service`, on its response channel. */
  method PublishServiceResponse(service: string, target: string, routingKey: string, body: Option<string>,
                                env: Publishing.Env)
    returns (err: Option<P.Reason>, sent: Option<Publishing.Message>)
    ensures sent == Response(service, target, routingKey, body, env)
    ensures sent.Some? <==> err.None?
    ensures err.None? <==> body.Some? && !env.sendFails
    ensures sent.Some? && SERVICE !in env.carrier ==> Answers(sent.value, service, target, routingKey)
    ensures sent.Some? ==> Some(sent.value.body) == body
  {
    err, sent := Publishing.PublishMessage(body, routingKey, ResponseExchange(service), service,
                                           map[SERVICE := Str(target)], env);
    if sent.Some? {
      ResponseIsAddressed(service, target, routingKey, body, env);
    }
  }

  // ---------------------------------------------------------------------------------------------
  // One handling step
  // ---------------------------------------------------------------------------------------------

  /** What one handling step meets: the error text of json.Unmarshal, the user handler's error, the encoded
      response (None when it cannot be encoded), clock, trace and network, and the errors that encoding and
      sending report when they fail. */
  datatype Parts = Parts(parse: Option<string>, handler: Option<GoError>, body: Option<string>, env: Publishing.Env,
                         marshalError: GoError, sendError: GoError)

  function PublishError(parts: Parts): Option<GoError> {
    if parts.body.None? then Some(parts.marshalError)
    else if parts.env.sendFails then Some(parts.sendError)
    else None
  }

  datatype Answer = Answer(err: Option<GoError>, sent: Option<Publishing.Message>)

  /** responseWrapper of the handler for `routingKey`. */
  function ResponseWrapper(service: string, routingKey: string, headers: Table, parts: Parts): Answer {
    if parts.handler.Some? then Answer(Some(Wrapped("failed to process message, ", parts.handler.value)), None)
    else match SendingService(headers)
      case None => Answer(Some(Wrapped("failed to extract service name, ", Leaf("no usable service header"))), None)
      case Some(target) =>
        var sent := Response(service, target, routingKey, parts.body, parts.env);
        match PublishError(parts)
        case Some(e) => Answer(Some(Wrapped("failed to publish response, ", e)), sent)
        case None => Answer(None, sent)
  }

  /** The wrapped handler of a RequestResponseHandler consumer: unmarshal first, then answer. */
  function Handle(service: string, routingKey: string, headers: Table, parts: Parts): Answer {
    if parts.parse.Some? then Answer(TypedHandler(false, parts.parse, None), None)
    else ResponseWrapper(service, routingKey, headers, parts)
  }

  /** None of the three wraps changes how the delivery is settled: a parse failure or either
      sentinel anywhere in a handler or publisher error decides as it would unwrapped, a missing
      sender means requeue. */
  lemma WrapsDecideNothing(service: string, routingKey: string, headers: Table, parts: Parts)
    ensures
      var v := VerdictOf(Ran(Handle(service, routingKey, headers, parts).err));
      if parts.parse.Some? then v == DropUnparsable
      else if parts.handler.Some? then v == Disposition(parts.handler.value)
      else if "service" !in headers || !headers["service"].Str? then v == Requeue
      else if PublishError(parts).Some? then v == Disposition(PublishError(parts).value)
      else v == Acknowledge
  {
    assert Is(ParseJSON, ParseJSON);
    if parts.parse.None? && parts.handler.Some? {
      DispositionStable(["failed to process message, "], parts.handler.value);
      assert WrapAll(["failed to process message, "], parts.handler.value)
          == Wrapped("failed to process message, ", parts.handler.value);
    } else if parts.parse.None? && SendingService(headers).Some? && PublishError(parts).Some? {
      DispositionStable(["failed to publish response, "], PublishError(parts).value);
      assert WrapAll(["failed to publish response, "], PublishError(parts).value)
          == Wrapped("failed to publish response, ", PublishError(parts).value);
    }
  }

  /** One step acknowledges its request exactly when it put a response on the wire; that response goes to the
      service's response exchange, addressed to the sender of the request. */
  lemma StepAcksIffItSent(service: string, routingKey: string, headers: Table, parts: Parts)
    ensures
      var a := Handle(service, routingKey, headers, parts);
      && (a.sent.Some? <==> a.err.None?)
      && (a.sent.Some? <==> VerdictOf(Ran(a.err)).Acknowledge?)
      && (a.sent.Some? ==> Some(a.sent.value.body) == parts.body)
      && (a.sent.Some? && SERVICE !in parts.env.carrier ==>
            exists sender :: "service" in headers && headers["service"] == Str(sender)
                             && Answers(a.sent.value, service, sender, routingKey))
  {
    WrapsDecideNothing(service, routingKey, headers, parts);
    var a := Handle(service, routingKey, headers, parts);
    if a.sent.Some? {
      ResponseIsAddressed(service, SendingService(headers).value, routingKey, parts.body, parts.env);
    }
  }
}
