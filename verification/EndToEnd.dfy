/** Request and response across services, from the caller's Publish to the caller's response handler. */
module EndToEnd {
  import opened Basics
  import opened Naming
  import opened Setups
  import opened SetupLaws
  import opened SetupOps
  import opened Topology
  import opened Routing
  import H = Headers
  import R = Registry
  import Publishing
  import RR = RequestResponse

  /** A deployment of services with distinct dot-free names, and suffixes of the given kind on response consumers,
      two of which are known by their setups. */
  ghost predicate Parties(m: R.Matcher, level: Suffixes, dep: map<string, Conn>, caller: string, a: Service,
                          responder: string, b: Service)
  {
    && R.Sound(m) && LiteralsMatch(m) && Deployment(m, level, dep) && caller in dep && responder in dep
    && IsUp(m, level, a) && a.start.service == caller && dep[caller] == FinalState(m, a)
    && IsUp(m, level, b) && b.start.service == responder && dep[responder] == FinalState(m, b)
  }

  /** One request and its handling: the publisher used, the caller's headers and the table Publish builds from
      them, routing key and body, what publishing meets at the caller, and what handling meets at the responder. */
  datatype Trip = Trip(publisher: nat, headers: seq<H.Header>, table: Table, key: string, body: string,
                       env: Publishing.Env, parts: RR.Parts)

  /** Any accepted headers, through a publisher that one of the caller's setups wires to the responder's requests
      and no later one rewires. The table is what Publish builds from the publisher's only default header and the
      caller's. */
  ghost predicate CanSend(a: Service, caller: string, responder: string, trip: Trip, k: nat) {
    && WiresLast(a.setups, k, trip.publisher)
    && a.setups[k].ServicePublisher? && a.setups[k].target == responder
    && H.Accepted(trip.headers)
    && H.HoldsLastWrites(trip.table, [H.Header("service", Str(caller))] + trip.headers)
    && H.SERVICE !in trip.env.carrier && H.SERVICE !in trip.parts.env.carrier
  }

  /** So the publisher has the exchange and the default headers of the request below. */
  lemma PublisherIsWired(m: R.Matcher, level: Suffixes, a: Service, responder: string, trip: Trip, k: nat)
    requires IsUp(m, level, a) && CanSend(a, a.start.service, responder, trip, k)
    ensures
      var wired := FinalState(m, a).wired;
      && trip.publisher in wired
      && wired[trip.publisher] == Wiring(RequestExchange(responder), a.start.service,
                                         [H.Header("service", Str(a.start.service))])
  {
    WiredExactly(m, level, a, trip.publisher);
    LastForMeaning(a.setups, trip.publisher, k);
  }

  /** The message Publish sends: what its publisher is wired to says where, and in whose name. */
  function Request(w: Wiring, trip: Trip): Message {
    var headers := Publishing.WireHeaders(trip.table, trip.key, w.service, trip.env);
    Publishing.Message(w.exchange, trip.key, headers, trip.body)
  }

  /** What the responder's handler for the request does, given the headers after normalisation by f. */
  function Reply(f: Table -> Table, responder: string, request: Message, parts: RR.Parts): RR.Answer {
    RR.Handle(responder, request.key, f(request.headers), parts)
  }

  /** No part of the handling step fails. */
  predicate HandledWell(parts: RR.Parts) {
    && parts.parse.None? && parts.handler.None?
    && parts.body.Some? && !parts.env.sendFails
  }

  lemma SenderIsSeen(f: Table -> Table, w: Wiring, trip: Trip, caller: string)
    requires Publishing.Normalizes(f) && H.Accepted(trip.headers) && H.SERVICE !in trip.env.carrier
    requires w.service == caller && H.HoldsLastWrites(trip.table, [H.Header("service", Str(caller))] + trip.headers)
    ensures RR.SendingService(f(Request(w, trip).headers)) == Some(caller)
  {
    var defaults := [H.Header("service", Str(caller))];
    Publishing.ServiceHeaderIntegrity(defaults, caller, trip.headers, trip.table, trip.key, trip.env);
    assert H.SERVICE[0] == 's' && H.CE[0] == 'c' && H.WIRE[0] == 'c' && H.JMS[0] == 'c';
    Publishing.PassesOthers(f, Request(w, trip).headers, H.SERVICE);
  }

  lemma ReplyIsAddressed(service: string, key: string, headers: Table, parts: RR.Parts, sender: string)
    requires RR.SendingService(headers) == Some(sender) && H.SERVICE !in parts.env.carrier
    ensures
      var sent := RR.Handle(service, key, headers, parts).sent;
      && (sent.Some? <==> HandledWell(parts))
      && (sent.Some? ==> IsResponse(sent.value, service, sender) && sent.value.key == key)
      && (sent.Some? ==> Some(sent.value.body) == parts.body)
  {
    RR.StepAcksIffItSent(service, key, headers, parts);
  }

  /** The responder reads the caller's name from the request, so it answers the caller whenever nothing fails. */
  lemma SenderIsCaller(f: Table -> Table, a: Service, caller: string, responder: string, trip: Trip, k: nat, w: Wiring)
    requires CanSend(a, caller, responder, trip, k) && w.service == caller && Publishing.Normalizes(f)
    ensures RR.SendingService(f(Request(w, trip).headers)) == Some(caller)
    ensures
      var sent := Reply(f, responder, Request(w, trip), trip.parts).sent;
      && (sent.Some? <==> HandledWell(trip.parts))
      && (sent.Some? ==> IsResponse(sent.value, responder, caller) && sent.value.key == trip.key)
      && (sent.Some? ==> Some(sent.value.body) == trip.parts.body)
  {
    SenderIsSeen(f, w, trip, caller);
    ReplyIsAddressed(responder, trip.key, f(Request(w, trip).headers), trip.parts, caller);
  }

  // ---------------------------------------------------------------------------------------------
  // The way out
  // ---------------------------------------------------------------------------------------------

  /** Some request consumer of the responder takes requests with one of these keys from this queue. */
  ghost predicate Served(responder: string, b: Service, keys: set<string>, queue: string) {
    exists j :: 0 <= j < |b.setups| && ServesRequests(b.setups[j], responder, keys, queue)
  }

  /** The request is routed to the request queues of the responder's consumers for its routing keys and to no other
      queue of any service; `queue` is one of them, and there the request finds handler h. */
  ghost predicate RequestArrives(m: R.Matcher, dep: map<string, Conn>, responder: string, b: Service, msg: Message,
                                 queue: string, order: seq<string>, h: R.Handler)
    requires responder in dep && IsOrder(R.HandlersOf(dep[responder].registry, queue).Keys, order)
  {
    && (forall s, q :: s in dep ==>
          (RoutesTo(m, dep[s], msg, q) <==> s == responder && Served(responder, b, RoutingKeys(msg), q)))
    && Served(responder, b, RoutingKeys(msg), queue)
    && R.FirstMatch(m, R.HandlersOf(dep[responder].registry, queue), order, msg.key) == Some(h)
  }

  lemma RequestLeg(m: R.Matcher, level: Suffixes, dep: map<string, Conn>, responder: string, b: Service, msg: Message,
                   i: nat, queue: string, order: seq<string>)
    requires R.Sound(m) && LiteralsMatch(m) && Deployment(m, level, dep) && responder in dep
    requires IsUp(m, level, b) && b.start.service == responder && dep[responder] == FinalState(m, b)
    requires msg.exchange == RequestExchange(responder) && WildcardFree(msg.key)
    requires i < |b.setups| && ServesRequests(b.setups[i], responder, {msg.key}, queue)
    requires IsOrder(R.HandlersOf(dep[responder].registry, queue).Keys, order)
    ensures RequestArrives(m, dep, responder, b, msg, queue, order, b.setups[i].handler)
  {
    forall s, q | s in dep
      ensures RoutesTo(m, dep[s], msg, q) <==> s == responder && Served(responder, b, RoutingKeys(msg), q)
    {
      RequestRoutedExactly(m, level, dep, responder, b, msg, s, q);
    }
    assert ServesRequests(b.setups[i], responder, RoutingKeys(msg), queue);
    RequestHandled(m, level, b, i, order);
  }

  // ---------------------------------------------------------------------------------------------
  // The way back
  // ---------------------------------------------------------------------------------------------

  /** Some response consumer of the caller takes the responder's responses from this queue. */
  ghost predicate Awaited(caller: string, a: Service, responder: string, queue: string) {
    exists j :: 0 <= j < |a.setups| && TakesFrom(a.setups[j], caller, responder, queue)
  }

  /** The response is routed to the caller's response queues for the responder, as its setups ask for them, and to
      no other queue of any service. No other service has a queue of such a name, if there are no suffixes on
      response consumers or the two names are not related by a dash. In the one with the given tail the response
      finds handler h exactly if one of the caller's response consumers for that queue has that handler and a
      pattern matching the key. */
  ghost predicate ResponseArrives(m: R.Matcher, level: Suffixes, dep: map<string, Conn>, caller: string, a: Service,
                                  responder: string, msg: Message, tail: string, order: seq<string>, h: R.Handler)
    requires caller in dep
    requires IsOrder(R.HandlersOf(dep[caller].registry, ResponseQueueName(responder, caller) + tail).Keys, order)
  {
    var home := ResponseQueueName(responder, caller) + tail;
    && (forall s, q :: s in dep ==>
          (RoutesTo(m, dep[s], msg, q) <==> s == caller && Awaited(caller, a, responder, q)))
    && (forall s, q :: s in dep && s != caller && Apart(level, s, caller) && Awaited(caller, a, responder, q) ==>
          q !in dep[s].registry)
    && (R.FirstMatch(m, R.HandlersOf(dep[caller].registry, home), order, msg.key) == Some(h)
        <==> exists j :: 0 <= j < |a.setups| && Awaits(m, a.setups[j], responder, tail, msg.key, h))
  }

  lemma ResponseLeg(m: R.Matcher, level: Suffixes, dep: map<string, Conn>, caller: string, a: Service,
                    responder: string, msg: Message, tail: string, order: seq<string>, h: R.Handler)
    requires R.Sound(m) && Deployment(m, level, dep) && caller in dep && DotFree(responder)
    requires IsUp(m, level, a) && a.start.service == caller && dep[caller] == FinalState(m, a)
    requires IsResponse(msg, responder, caller) && !level.AnySuffix? && IsTail(tail)
    requires IsOrder(R.HandlersOf(dep[caller].registry, ResponseQueueName(responder, caller) + tail).Keys, order)
    ensures ResponseArrives(m, level, dep, caller, a, responder, msg, tail, order, h)
  {
    ResponseReachesCaller(m, level, dep, responder, caller, msg);
    forall s, q | s in dep
      ensures RoutesTo(m, dep[s], msg, q) <==> s == caller && Awaited(caller, a, responder, q)
    {
      TakesResponsesExactly(m, level, a, responder, q);
    }
    forall s, q | s in dep && s != caller && Apart(level, s, caller) && Awaited(caller, a, responder, q)
      ensures q !in dep[s].registry
    {
      TakesResponsesExactly(m, level, a, responder, q);
    }
    ResponseHandledExactly(m, level, a, responder, tail, msg.key, order, h);
  }

  // ---------------------------------------------------------------------------------------------
  // The round trip
  // ---------------------------------------------------------------------------------------------

  /** End to end. The caller publishes a request with any accepted headers to a responder one of whose setups is
      a RequestResponseHandler for the request's key. The request reaches that handler. If nothing fails there,
      and only then, a response with the request's key is sent; it reaches the caller's response queues for the
      responder, if the caller has any, and nothing else; and there it finds the handler of the caller's response
      consumer whose pattern matches the key, if there is one. All this in every iteration order of the two
      handler tables, `atResponder` and `atCaller`, and for every kind of suffixes but those with dots. */
  lemma RequestIsAnsweredToCaller(m: R.Matcher, level: Suffixes, f: Table -> Table, dep: map<string, Conn>,
                                  caller: string, a: Service, responder: string, b: Service, trip: Trip, k: nat,
                                  i: nat, answering: R.Handler, awaiting: R.Handler, tail: string,
                                  atResponder: seq<string>, atCaller: seq<string>)
    requires Parties(m, level, dep, caller, a, responder, b) && CanSend(a, caller, responder, trip, k)
    requires Publishing.Normalizes(f) && WildcardFree(trip.key) && !level.AnySuffix? && IsTail(tail)
    requires i < |b.setups| && b.setups[i] == RequestResponse(trip.key, answering)
    requires IsOrder(R.HandlersOf(dep[responder].registry, RequestQueueName(responder)).Keys, atResponder)
    requires IsOrder(R.HandlersOf(dep[caller].registry, ResponseQueueName(responder, caller) + tail).Keys, atCaller)
    ensures trip.publisher in dep[caller].wired
    ensures RequestArrives(m, dep, responder, b, Request(dep[caller].wired[trip.publisher], trip),
                           RequestQueueName(responder), atResponder, answering)
    ensures
      var sent := Reply(f, responder, Request(dep[caller].wired[trip.publisher], trip), trip.parts).sent;
      && (sent.Some? <==> HandledWell(trip.parts))
      && (sent.Some? ==>
            && sent.value.key == trip.key && Some(sent.value.body) == trip.parts.body
            && ResponseArrives(m, level, dep, caller, a, responder, sent.value, tail, atCaller, awaiting))
  {
    PublisherIsWired(m, level, a, responder, trip, k);
    var w := dep[caller].wired[trip.publisher];
    assert RequestQueueName(responder) + SuffixTail([]) == RequestQueueName(responder);
    RequestLeg(m, level, dep, responder, b, Request(w, trip), i, RequestQueueName(responder), atResponder);
    SenderIsCaller(f, a, caller, responder, trip, k, w);
    var sent := Reply(f, responder, Request(w, trip), trip.parts).sent;
    if sent.Some? {
      ResponseLeg(m, level, dep, caller, a, responder, sent.value, tail, atCaller, awaiting);
    }
  }
}
