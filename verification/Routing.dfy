/** Where the broker routes a message, given the bindings several services have made; and when what
    arrives in a queue finds its handler there. */
module Routing {
  import opened Basics
  import opened Naming
  import opened Setups
  import opened SetupLaws
  import opened Topology
  import H = Headers
  import R = Registry
  import T = TopicWords
  import Publishing
  import SetupTrace
  import DryRun

  type Message = Publishing.Message

  const CC := "CC"
  const BCC := "BCC"

  /** The strings a header lists. */
  function Listed(headers: Table, name: string): set<string> {
    if name in headers && headers[name].Strs? then (set k | k in headers[name].items) else {}
  }

  /** The keys by which direct, topic and default exchanges route: RabbitMQ's sender-selected distribution adds
      those listed under CC and BCC to the message's own. Consumers look up their handler by the latter only. */
  function RoutingKeys(msg: Message): set<string> {
    {msg.key} + Listed(msg.headers, CC) + Listed(msg.headers, BCC)
  }

  // Section 3.1.3 of AMQP 0-9-1: direct, topic and headers exchanges.

  /** x-match = all, the default */
  predicate AllMatch(args: Table, headers: Table) {
    forall k :: k in args ==> k in headers && headers[k] == args[k]
  }

  /** x-match = any */
  predicate AnyMatch(args: Table, headers: Table) {
    exists k :: k in args && k in headers && headers[k] == args[k]
  }

  predicate BindingMatches(m: R.Matcher, kind: Kind, key: string, args: Table, msg: Message) {
    match kind
    case Topic => exists k :: k in RoutingKeys(msg) && m.matches(key, k)
    case Direct => key in RoutingKeys(msg)
    case HeaderMatch => AllMatch(args, msg.headers)
  }

  /** The event is a binding the broker accepted, and it routes msg into its queue. */
  ghost predicate Routes(m: R.Matcher, e: Event, msg: Message) {
    && e.ok && e.op.Bind? && e.op.exchange == msg.exchange
    && exists kind :: FitsKind(msg.exchange, kind) && BindingMatches(m, kind, e.op.key, e.op.args, msg)
  }

  ghost predicate RoutesTo(m: R.Matcher, c: Conn, msg: Message, queue: string) {
    exists i :: 0 <= i < |c.trace| && Routes(m, c.trace[i], msg) && c.trace[i].op.queue == queue
  }

  lemma KindUnique(e: ExchangeId, kind: Kind)
    requires FitsKind(ExchangeName(e), kind)
    ensures kind == KindOf(e)
  {
    var d: ExchangeId :| ExchangeName(d) == ExchangeName(e) && KindOf(d) == kind;
    ExchangeNamesInjective(d, e);
  }

  // ---------------------------------------------------------------------------------------------
  // Every routed message has its handler
  // ---------------------------------------------------------------------------------------------

  predicate WildcardFree(key: string) { '*' !in key && '#' !in key }

  /** The hypothesis on spec.MatchRoutingKey for literal keys. */
  ghost predicate LiteralsMatch(m: R.Matcher) {
    forall k :: WildcardFree(k) ==> m.matches(k, k)
  }

  lemma TopicLiteralsMatch()
    ensures LiteralsMatch(T.TOPIC)
  {
    forall k | WildcardFree(k)
      ensures T.TOPIC.matches(k, k)
    {
      T.MatchSelf(T.Split(k));
    }
  }

  /** Without CC and BCC a topic binding, or a wildcard-free direct one, that routes a message matches its key. */
  lemma RoutedByOwnKey(m: R.Matcher, e: Event, msg: Message)
    requires LiteralsMatch(m) && Routes(m, e, msg)
    requires FitsKind(msg.exchange, Topic) || (FitsKind(msg.exchange, Direct) && WildcardFree(e.op.key))
    ensures RoutingKeys(msg) == {msg.key} ==> m.matches(e.op.key, msg.key)
  {
    var kind :| FitsKind(msg.exchange, kind) && BindingMatches(m, kind, e.op.key, e.op.args, msg);
    var x: ExchangeId :| ExchangeName(x) == msg.exchange && KindOf(x) == kind;
    if FitsKind(msg.exchange, Topic) { KindUnique(x, Topic); } else { KindUnique(x, Direct); }
  }

  /** In every reachable setup state, also after refused operations: a message that a topic binding, or a
      wildcard-free direct binding, routes into a queue finds in that queue's table the handler registered with
      the binding, whatever the iteration order of the table, provided that its own key was the reason, as it
      always is without CC and BCC; and it finds some handler exactly if a registered pattern matches its own
      key. */
  lemma RoutedHasHandler(m: R.Matcher, setups: seq<Setup>, start: Conn, env: Env, c: Conn, i: nat, msg: Message,
                         order: seq<string>)
    requires R.Sound(m) && LiteralsMatch(m) && Reached(m, AnySuffix, setups, start, env, c)
    requires i < |c.trace| && Routes(m, c.trace[i], msg)
    requires FitsKind(msg.exchange, Topic) || (FitsKind(msg.exchange, Direct) && WildcardFree(c.trace[i].op.key))
    requires IsOrder(R.HandlersOf(c.registry, c.trace[i].op.queue).Keys, order)
    ensures
      var op := c.trace[i].op;
      var hs := R.HandlersOf(c.registry, op.queue);
      var found := R.FirstMatch(m, hs, order, msg.key);
      && op.key in hs
      && (RoutingKeys(msg) == {msg.key} || m.matches(op.key, msg.key) ==> found == Some(hs[op.key]))
      && (found.Some? <==> exists p :: p in hs && m.matches(p, msg.key))
  {
    ReachedInv(m, AnySuffix, setups, start, env, c);
    var op := c.trace[i].op;
    var hs := R.HandlersOf(c.registry, op.queue);
    assert EventOk(c.service, AnySuffix, c.registry, c.trace[i]);
    RoutedByOwnKey(m, c.trace[i], msg);
    R.FirstMatchIsLookup(m, hs, order, msg.key);
    if RoutingKeys(msg) == {msg.key} || m.matches(op.key, msg.key) {
      R.MatchIsFound(m, hs, order, msg.key, op.key);
    }
  }

  lemma ConsumerSucceeds(m: R.Matcher, c: Conn, env: Env, base: Config, opts: seq<Opt>, pattern: Pattern,
                         ephemeral: bool)
    requires DryRun.NeverFails(env) && c.registry == map[] && base.bindArgs == map[]
    requires forall o :: o in opts ==> !BadOpt(o)
    ensures RunConsumer(m, c, env, base, opts, pattern, ephemeral).ok
  {
    FoldMeaning(base, opts);
  }

  lemma OnlyConsumerSucceeds(m: R.Matcher, service: string, s: Setup, env: Env)
    requires DryRun.NeverFails(env) && BindingOf(s, Fresh(service), env).Some? && s.opts == []
    ensures RunSetup(m, s, Fresh(service), env).ok
  {
    var c := Fresh(service);
    match s
    case StreamConsumer(stream, key, h, _) =>
      var x := TopicExchange(stream);
      ConsumerSucceeds(m, c, env, BaseConfig(key, x, EventQueueName(x, service), Topic, h), [],
                       StreamPattern(stream), false);
    case TransientStreamConsumer(stream, key, h, _) =>
      ConsumerSucceeds(m, Drawn(c), env, TransientConfig(c, env, stream, key, h), [] + [ShortTtl],
                       StreamPattern(stream), true);
    case ServiceRequestConsumer(key, h, _) =>
      ConsumerSucceeds(m, Declared(c, env, Responses(service)), env,
                       BaseConfig(key, RequestExchange(service), RequestQueueName(service), Direct, h), [],
                       ServiceRequest, false);
    case ServiceResponseConsumer(target, key, h, _) =>
      ConsumerSucceeds(m, c, env,
                       BaseConfig(key, ResponseExchange(target), ResponseQueueName(target, service), HeaderMatch, h),
                       [] + [ServiceHeader(service)], ServiceResponse, false);
  }

  /** A connection whose only setup was one consumer. */
  lemma OnlyConsumer(m: R.Matcher, service: string, s: Setup, env: Env) returns (c: Conn, b: Binding, i: nat)
    requires Legit(s) && DryRun.NeverFails(env) && BindingOf(s, Fresh(service), env).Some? && s.opts == []
    ensures RunAll(m, [s], Fresh(service), env) == Ran(c, true) && BindingOf(s, Fresh(service), env) == Some(b)
    ensures c.registry == map[b.queue := map[b.key := b.handler]]
    ensures i < |c.trace| && IsBindOf(c.trace[i], b)
  {
    var start := Fresh(service);
    assert [s][..0] == [];
    OnlyConsumerSucceeds(m, service, s, env);
    c, b := RunSetup(m, s, start, env).c, BindingOf(s, start, env).value;
    SetupEffect(m, s, start, env);
    i :| 0 <= i < |c.trace| && IsBindOf(c.trace[i], b);
  }

  /** With CC the own key may be none of the reasons: after a single successful StreamConsumer, a message whose
      pattern matches a listed key but not the message's own is routed into the queue and has no handler. */
  lemma SelectedMayLackHandler(m: R.Matcher, service: string, stream: string, pattern: string, msg: Message,
                               key: string, h: R.Handler, env: Env)
    requires DryRun.NeverFails(env) && msg.exchange == TopicExchange(stream)
    requires key in RoutingKeys(msg) && m.matches(pattern, key) && !m.matches(pattern, msg.key)
    ensures
      var c := RunAll(m, [StreamConsumer(stream, pattern, h, [])], Fresh(service), env).c;
      var queue := EventQueueName(TopicExchange(stream), service);
      && RoutesTo(m, c, msg, queue)
      && queue in c.registry && forall p :: p in c.registry[queue] ==> !m.matches(p, msg.key)
  {
    var c, b, i := OnlyConsumer(m, service, StreamConsumer(stream, pattern, h, []), env);
    assert b.queue == EventQueueName(TopicExchange(stream), service);
    assert ExchangeName(Stream(stream)) == msg.exchange && KindOf(Stream(stream)) == Topic;
    assert FitsKind(msg.exchange, Topic) && BindingMatches(m, Topic, pattern, b.args, msg);
    assert Routes(m, c.trace[i], msg);
  }

  /** A response of `responder` addressed to `caller`. */
  predicate IsResponse(msg: Message, responder: string, caller: string) {
    && msg.exchange == ResponseExchange(responder)
    && H.SERVICE in msg.headers && msg.headers[H.SERVICE] == Str(caller)
  }

  /** A headers binding ignores the routing key, so no such guarantee holds for response queues: after a
      single successful ServiceResponseConsumer, a response with a key its pattern does not match is
      routed into the queue and has no handler there. `ResponseHandledExactly` says when it has one. */
  lemma HeaderRoutedMayLackHandler(m: R.Matcher, service: string, target: string, pattern: string, msg: Message,
                                   h: R.Handler, env: Env)
    requires IsResponse(msg, target, service) && !m.matches(pattern, msg.key) && DryRun.NeverFails(env)
    ensures
      var c := RunAll(m, [ServiceResponseConsumer(target, pattern, h, [])], Fresh(service), env).c;
      var queue := ResponseQueueName(target, service);
      && RoutesTo(m, c, msg, queue)
      && queue in c.registry && forall p :: p in c.registry[queue] ==> !m.matches(p, msg.key)
  {
    var c, b, i := OnlyConsumer(m, service, ServiceResponseConsumer(target, pattern, h, []), env);
    assert b.queue == ResponseQueueName(target, service);
    assert ExchangeName(Responses(target)) == msg.exchange && KindOf(Responses(target)) == HeaderMatch;
    assert FitsKind(msg.exchange, HeaderMatch) && BindingMatches(m, HeaderMatch, pattern, b.args, msg);
    assert Routes(m, c.trace[i], msg);
  }

  // ---------------------------------------------------------------------------------------------
  // Sending to a queue
  // ---------------------------------------------------------------------------------------------

  /** On the wire a header outside the `ce-` and `cloudEvents:` spellings is as the table has it. */
  lemma WirePassesPlain(table: Table, key: string, source: string, env: Publishing.Env, k: string)
    requires !(H.CE <= k) && !(H.WIRE <= k) && k !in env.carrier
    ensures k in Publishing.WireHeaders(table, key, source, env) <==> k in table
    ensures k in table ==> Publishing.WireHeaders(table, key, source, env)[k] == table[k]
  {
    Publishing.StampedElsewhere(H.Normalized(table), key, source, env, k);
    if k in H.Normalized(table) {
      H.WireOrigin(table, k);
    }
  }

  /** A message sent through a QueuePublisher for `queue`, with headers that list no keys of their own, is routed
      by the default exchange to the queues named by its routing key and by the publisher, and to no others. */
  lemma QueuePublisherSelects(service: string, queue: string, headers: seq<H.Header>, table: Table, key: string,
                              body: string, env: Publishing.Env)
    requires H.HoldsLastWrites(table, WiringFor("", service, [CcHeader(queue)]).defaults + headers)
    requires forall i :: 0 <= i < |headers| ==> headers[i].key != CC && headers[i].key != BCC
    requires CC !in env.carrier && BCC !in env.carrier
    ensures
      var msg := Publishing.Message("", key, Publishing.WireHeaders(table, key, service, env), body);
      RoutingKeys(msg) == {key, queue}
  {
    var cc, own := CcHeader(queue), H.Header(H.SERVICE, Str(service));
    var defaults, wire := [cc] + [own], Publishing.WireHeaders(table, key, service, env);
    assert CC[0] == 'C' && BCC[0] == 'B' && H.SERVICE[0] == 's' && H.CE[0] == 'c' && H.WIRE[0] == 'c';
    H.LastWriteEarlier(defaults, headers, CC);
    H.LastWriteEarlier(defaults, headers, BCC);
    H.LastWriteAppend([cc], own, CC);
    H.LastWriteAppend([cc], own, BCC);
    H.LastWriteAppend([], cc, CC);
    H.LastWriteAppend([], cc, BCC);
    assert [] + [cc] == [cc];
    assert H.LastWrite(defaults + headers, CC) == Some(Strs([queue])) && H.LastWrite(defaults + headers, BCC) == None;
    assert CC in table && table[CC] == Strs([queue]) && BCC !in table;
    WirePassesPlain(table, key, service, env, CC);
    WirePassesPlain(table, key, service, env, BCC);
  }

  // ---------------------------------------------------------------------------------------------
  // Several services
  // ---------------------------------------------------------------------------------------------

  /** c is a state of the service named `service`, reached by setups whose response consumers have suffixes of
      the given kind only. */
  ghost predicate ServiceState(m: R.Matcher, level: Suffixes, service: string, c: Conn) {
    exists setups, start, env :: Reached(m, level, setups, start, env, c) && start.service == service
  }

  /** Any set of services with dot-free names; the map's keys make the names distinct. */
  ghost predicate Deployment(m: R.Matcher, level: Suffixes, dep: map<string, Conn>) {
    forall s :: s in dep ==> DotFree(s) && ServiceState(m, level, s, dep[s])
  }

  lemma ServiceInv(m: R.Matcher, level: Suffixes, service: string, c: Conn)
    requires R.Sound(m) && ServiceState(m, level, service, c)
    ensures Inv(m, level, c) && c.service == service
  {
    var setups, start, env :| Reached(m, level, setups, start, env, c) && start.service == service;
    ReachedInv(m, level, setups, start, env, c);
  }

  /** A binding at a known exchange belongs to the queue built for that exchange. */
  lemma BindingOrigin(level: Suffixes, service: string, c: Conn, i: nat, x: ExchangeId)
    returns (q: QueueId, tail: string)
    requires TraceOk(level, c) && c.service == service && i < |c.trace| && c.trace[i].op.Bind?
    requires c.trace[i].op.exchange == ExchangeName(x)
    ensures IsQueue(service, level, c.trace[i].op.queue, q, tail) && SourceOf(q) == x
    ensures c.trace[i].op.args == BindArgsOf(q)
  {
    assert EventOk(service, level, c.registry, c.trace[i]);
    q, tail :| IsQueue(service, level, c.trace[i].op.queue, q, tail)
               && c.trace[i].op.exchange == ExchangeName(SourceOf(q)) && c.trace[i].op.args == BindArgsOf(q);
    ExchangeNamesInjective(SourceOf(q), x);
  }

  predicate IsResponseBinding(e: Event, target: string) {
    e.ok && e.op.Bind? && e.op.exchange == ResponseExchange(target)
  }

  /** The broker accepted a binding of c's queue to the response exchange of `target`. */
  predicate TakesResponses(c: Conn, target: string, queue: string) {
    exists i :: 0 <= i < |c.trace| && IsResponseBinding(c.trace[i], target) && c.trace[i].op.queue == queue
  }

  /** In any deployment a response binding carries one header, its own service's name; so it matches the same
      messages under x-match all and any, namely those addressed to that service. */
  lemma SingleHeaderModes(m: R.Matcher, level: Suffixes, dep: map<string, Conn>, s: string, i: nat, target: string,
                          headers: Table)
    requires R.Sound(m) && Deployment(m, level, dep) && s in dep && i < |dep[s].trace|
    requires IsResponseBinding(dep[s].trace[i], target)
    ensures
      var args := dep[s].trace[i].op.args;
      && (AllMatch(args, headers) <==> AnyMatch(args, headers))
      && (AllMatch(args, headers) <==> H.SERVICE in headers && headers[H.SERVICE] == Str(s))
  {
    ServiceInv(m, level, s, dep[s]);
    var q, tail := BindingOrigin(level, s, dep[s], i, Responses(target));
    var args := dep[s].trace[i].op.args;
    assert args == map[H.SERVICE := Str(s)];
    assert H.SERVICE in args;
  }

  /** One binding: it routes a response for `caller` exactly if it is a response binding for the responder made by
      the caller, and then it leads to one of the caller's response queues. */
  lemma ResponseBinding(m: R.Matcher, level: Suffixes, dep: map<string, Conn>, s: string, i: nat, responder: string,
                        caller: string, msg: Message)
    requires R.Sound(m) && Deployment(m, level, dep) && s in dep && i < |dep[s].trace|
    requires IsResponse(msg, responder, caller)
    ensures
      var e := dep[s].trace[i];
      && (Routes(m, e, msg) <==> IsResponseBinding(e, responder) && s == caller)
      && (Routes(m, e, msg) ==>
            exists tail :: AllowsTail(level, tail) && e.op.queue == ResponseQueueName(responder, caller) + tail)
  {
    if IsResponseBinding(dep[s].trace[i], responder) {
      var x := Responses(responder);
      ServiceInv(m, level, s, dep[s]);
      var q, tail := BindingOrigin(level, s, dep[s], i, x);
      assert q == ResponseQueue(responder, s);
      assert FitsKind(msg.exchange, HeaderMatch) by {
        assert ExchangeName(x) == msg.exchange && KindOf(x) == HeaderMatch;
      }
      forall kind | FitsKind(ExchangeName(x), kind)
        ensures kind == HeaderMatch
      {
        KindUnique(x, kind);
      }
      SingleHeaderModes(m, level, dep, s, i, responder, msg.headers);
    }
  }

  lemma SplitWord(a: string, b: string, rest: string)
    requires DotFree(b)
    ensures T.Split(a + "." + b + "." + rest) == T.Split(a) + [b] + T.Split(rest)
  {
    assert a + "." + b + "." + rest == a + "." + (b + "." + rest);
    T.SplitConcat(a, b + "." + rest);
    T.SplitConcat(b, rest);
    T.SplitDotFree(b);
  }

  /** Splitting a name that continues after three known words. */
  lemma SplitWords(a: string, b: string, c: string, d: string, e: string)
    requires DotFree(b) && DotFree(c) && DotFree(d)
    ensures T.Split(a + "." + b + "." + c + "." + d + "." + e) == T.Split(a) + [b, c, d] + T.Split(e)
  {
    var ab := a + "." + b;
    T.SplitConcat(a, b);
    T.SplitDotFree(b);
    assert T.Split(ab) == T.Split(a) + [b];
    var abc := ab + "." + c;
    T.SplitConcat(ab, c);
    T.SplitDotFree(c);
    assert T.Split(abc) == T.Split(a) + [b, c];
    SplitWord(abc, d, e);
    assert T.Split(a) + [b, c] + [d] == T.Split(a) + [b, c, d];
  }

  lemma ResponseQueueWords(target: string, consumer: string)
    ensures ResponseQueueName(target, consumer)
         == target + "." + "headers" + "." + "exchange" + "." + "response" + "." + ("queue" + "." + consumer)
  {
    var stem := target + "." + "headers" + "." + "exchange" + "." + "response";
    assert ResponseExchange(target) == stem;
    assert stem + ".queue." + consumer == stem + "." + ("queue" + "." + consumer);
  }

  lemma SplitResponseQueue(target: string, consumer: string)
    requires DotFree(target) && DotFree(consumer)
    ensures T.Split(ResponseQueueName(target, consumer))
         == [target, "headers", "exchange", "response", "queue", consumer]
  {
    SplitWords(target, "headers", "exchange", "response", "queue" + "." + consumer);
    ResponseQueueWords(target, consumer);
    T.SplitConcat("queue", consumer);
    T.SplitDotFree("queue");
    T.SplitDotFree(target);
    T.SplitDotFree(consumer);
  }

  lemma EventQueueDiffers(stream: string, service: string, tail: string, target: string, consumer: string)
    requires DotFree(target) && DotFree(consumer)
    ensures EventQueueName(TopicExchange(stream), service) + tail != ResponseQueueName(target, consumer)
  {
    var n := EventQueueName(TopicExchange(stream), service) + tail;
    assert n == stream + "." + "topic" + "." + "exchange" + "." + "queue" + "." + (service + tail);
    SplitWords(stream, "topic", "exchange", "queue", service + tail);
    SplitResponseQueue(target, consumer);
    var w, r := T.Split(n), T.Split(ResponseQueueName(target, consumer));
    var k := |T.Split(stream)|;
    assert w[k] == "topic" && w[k+1] == "exchange";
    assert w == r ==> |w| == 6 && (k == 1 || k == 2);
    assert r[1] == "headers" && r[2] == "exchange";
    assert "topic"[0] == 't' && "headers"[0] == 'h' && "exchange"[0] == 'e';
  }

  lemma RequestQueueDiffers(service: string, tail: string, target: string, consumer: string)
    requires DotFree(service) && DotFree(target) && DotFree(consumer)
    ensures RequestQueueName(service) + tail != ResponseQueueName(target, consumer)
  {
    var n := RequestQueueName(service) + tail;
    assert n == service + "." + "direct" + "." + "exchange" + "." + "request" + "." + ("queue" + tail);
    SplitWords(service, "direct", "exchange", "request", "queue" + tail);
    T.SplitDotFree(service);
    SplitResponseQueue(target, consumer);
    assert T.Split(n)[1] == "direct";
    assert "direct"[0] == 'd' && "headers"[0] == 'h';
  }

  lemma TailIsName(target: string, consumer: string, tail: string)
    ensures ResponseQueueName(target, consumer) + tail == ResponseQueueName(target, consumer + tail)
  {
  }

  /** The two services cannot have response queues of one name. */
  predicate Apart(level: Suffixes, s: string, t: string) {
    level.NoSuffix? || (level.DotFreeSuffix? && !DashRelated(s, t))
  }

  /** No queue of another service has the name of one of the caller's response queues. */
  lemma ForeignQueueDiffers(level: Suffixes, service: string, queue: string, responder: string, caller: string,
                            tail: string)
    requires OwnQueue(service, level, queue) && service != caller && Apart(level, service, caller)
    requires DotFree(service) && DotFree(responder) && DotFree(caller) && AllowsTail(level, tail)
    ensures queue != ResponseQueueName(responder, caller) + tail
  {
    var q, t :| IsQueue(service, level, queue, q, t);
    TailIsName(responder, caller, tail);
    match q
    case EventQueue(stream, _) => EventQueueDiffers(stream, service, t, responder, caller + tail);
    case RequestQueue(_) => RequestQueueDiffers(service, t, responder, caller + tail);
    case ResponseQueue(target, _) =>
      var home := ResponseQueue(responder, caller);
      if queue == QueueName(home) + tail {
        assert SharedWithTails(q, t, home, tail, service, caller);
        TailedNamesEqual(q, t, home, tail);
        SameLength(service, t, caller, tail);
        TailedConsumersCollideExactly(service, caller);
      }
  }

  /** In any deployment, a response that `responder` publishes for `caller` is routed to the caller's response
      queues for that responder and nowhere else. No other service has a queue of that name if there are no
      suffixes on response consumers, or dot-free ones and names not related by a dash. */
  lemma ResponseReachesCaller(m: R.Matcher, level: Suffixes, dep: map<string, Conn>, responder: string, caller: string,
                              msg: Message)
    requires R.Sound(m) && Deployment(m, level, dep) && caller in dep && DotFree(responder)
    requires IsResponse(msg, responder, caller)
    ensures forall s, queue :: s in dep ==>
              (RoutesTo(m, dep[s], msg, queue) <==> s == caller && TakesResponses(dep[caller], responder, queue))
    ensures forall s, queue ::
              s in dep && s != caller && Apart(level, s, caller) && TakesResponses(dep[caller], responder, queue) ==>
                queue !in dep[s].registry
  {
    forall s, queue | s in dep
      ensures RoutesTo(m, dep[s], msg, queue) <==> s == caller && TakesResponses(dep[caller], responder, queue)
    {
      forall i: nat | i < |dep[s].trace|
        ensures Routes(m, dep[s].trace[i], msg) <==> IsResponseBinding(dep[s].trace[i], responder) && s == caller
      {
        ResponseBinding(m, level, dep, s, i, responder, caller, msg);
      }
    }
    forall s, queue | s in dep && s != caller && Apart(level, s, caller)
                      && TakesResponses(dep[caller], responder, queue)
      ensures queue !in dep[s].registry
    {
      var i: nat :| i < |dep[caller].trace| && IsResponseBinding(dep[caller].trace[i], responder)
                    && dep[caller].trace[i].op.queue == queue;
      ResponseBinding(m, level, dep, caller, i, responder, caller, msg);
      var tail :| AllowsTail(level, tail) && queue == ResponseQueueName(responder, caller) + tail;
      ServiceInv(m, level, s, dep[s]);
      if queue in dep[s].registry {
        ForeignQueueDiffers(level, s, queue, responder, caller, tail);
      }
    }
  }

  /** A request published to `target`'s request exchange is routed only by bindings of `target` itself,
      namely those with one of the message's routing keys. */
  lemma RequestReachesTarget(m: R.Matcher, level: Suffixes, dep: map<string, Conn>, target: string, msg: Message,
                             s: string, i: nat)
    requires R.Sound(m) && Deployment(m, level, dep) && s in dep && i < |dep[s].trace|
    requires msg.exchange == RequestExchange(target)
    ensures Routes(m, dep[s].trace[i], msg)
            <==> (var e := dep[s].trace[i];
                  e.ok && e.op.Bind? && e.op.exchange == RequestExchange(target) && e.op.key in RoutingKeys(msg))
    ensures Routes(m, dep[s].trace[i], msg) ==> s == target && RequestQueueName(target) <= dep[s].trace[i].op.queue
  {
    ServiceInv(m, level, s, dep[s]);
    var e, x := dep[s].trace[i], Requests(target);
    if e.ok && e.op.Bind? && e.op.exchange == RequestExchange(target) {
      var q, tail := BindingOrigin(level, s, dep[s], i, x);
      assert q == RequestQueue(target);
      assert FitsKind(msg.exchange, Direct) by { assert ExchangeName(x) == msg.exchange && KindOf(x) == Direct; }
      forall kind | FitsKind(ExchangeName(x), kind)
        ensures kind == Direct
      {
        KindUnique(x, kind);
      }
    }
  }

  // ---------------------------------------------------------------------------------------------
  // When a service's setups decide what is routed and handled
  // ---------------------------------------------------------------------------------------------

  lemma StateKeepsService(m: R.Matcher, svc: Service, i: nat)
    requires i <= |svc.setups|
    ensures StateAt(m, svc, i).service == svc.start.service
  {
    SetupTrace.AllSetupsLater(m, svc.setups[..i], svc.start, svc.env);
  }

  lemma TableIsDisjoint(m: R.Matcher, level: Suffixes, svc: Service, queue: string)
    requires R.Sound(m) && IsUp(m, level, svc)
    ensures R.Disjoint(m, R.HandlersOf(FinalState(m, svc).registry, queue))
  {
    ReachedInv(m, level, svc.setups, svc.start, svc.env, FinalState(m, svc));
  }

  /** The setup consumes responses of `responder`, from a queue with this tail. */
  predicate ConsumesResponses(s: Setup, responder: string, tail: string) {
    s.ServiceResponseConsumer? && s.target == responder && SuffixTail(s.opts) == tail
  }

  /** A service that is up has applied each of its setups successfully. */
  lemma {:induction false} SetupSucceeded(m: R.Matcher, level: Suffixes, svc: Service, i: nat)
    requires IsUp(m, level, svc) && i < |svc.setups|
    ensures RunSetup(m, svc.setups[i], StateAt(m, svc, i), svc.env).ok
    decreases |svc.setups|
  {
    var n := |svc.setups| - 1;
    FrontIsUp(m, level, svc);
    if i < n {
      SetupSucceeded(m, level, Front(svc), i);
      assert svc.setups[..n][..i] == svc.setups[..i];
    }
  }

  /** So its response consumers have tails of the allowed kind. */
  lemma ConsumerTail(m: R.Matcher, level: Suffixes, svc: Service, i: nat)
    requires IsUp(m, level, svc) && i < |svc.setups| && svc.setups[i].ServiceResponseConsumer?
    ensures AllowsTail(level, SuffixTail(svc.setups[i].opts))
  {
    SetupSucceeded(m, level, svc, i);
    var s, c := svc.setups[i], StateAt(m, svc, i);
    assert Admissible(level, s);
    var all := s.opts + [ServiceHeader(c.service)];
    var base := BaseConfig(s.key, ResponseExchange(s.target), ResponseQueueName(s.target, c.service), HeaderMatch,
                           s.handler);
    FoldMeaning(base, all);
    assert FoldOpts(base, all).Some?;
    forall o | o in s.opts
      ensures !BadOpt(o)
    {
      var k :| 0 <= k < |s.opts| && s.opts[k] == o;
      assert all[k] == o;
    }
    TailIsAllowed(level, s.opts);
  }

  /** Only response consumers for the responder, with the same tail, bind a response queue for it. */
  lemma HomeIsForResponses(m: R.Matcher, level: Suffixes, svc: Service, i: nat, b: Binding, responder: string,
                           tail: string)
    requires IsUp(m, level, svc) && AsksAt(m, svc, i, b) && DotFree(svc.start.service) && DotFree(responder)
    requires !level.AnySuffix? && IsTail(tail)
    ensures b.queue == ResponseQueueName(responder, svc.start.service) + tail
            <==> ConsumesResponses(svc.setups[i], responder, tail)
  {
    StateKeepsService(m, svc, i);
    var service, s := svc.start.service, svc.setups[i];
    TailIsName(responder, service, tail);
    match s
    case StreamConsumer(stream, _, _, opts) =>
      EventQueueDiffers(stream, service, SuffixTail(opts), responder, service + tail);
    case TransientStreamConsumer(stream, _, _, opts) =>
      var random := svc.env.rand(StateAt(m, svc, i).draws);
      TransientName(stream, service, random, SuffixTail(opts));
      EventQueueDiffers(stream, service, "-" + random + SuffixTail(opts), responder, service + tail);
    case ServiceRequestConsumer(_, _, opts) =>
      RequestQueueDiffers(service, SuffixTail(opts), responder, service + tail);
    case ServiceResponseConsumer(target, _, _, opts) =>
      ConsumerTail(m, level, svc, i);
      TailedNamesEqual(ResponseQueue(target, service), SuffixTail(opts), ResponseQueue(responder, service), tail);
      if service + SuffixTail(opts) == service + tail {
        SameLength(service, SuffixTail(opts), service, tail);
      }
  }

  /** Setup s registers handler h for this pattern on the response queue for `responder` with this tail. */
  predicate Registers(s: Setup, responder: string, tail: string, pattern: string, h: R.Handler) {
    ConsumesResponses(s, responder, tail) && s.key == pattern && s.handler == h
  }

  /** The handlers on a response queue are those of the service's response consumers for it. */
  lemma HomeTable(m: R.Matcher, level: Suffixes, svc: Service, responder: string, tail: string, pattern: string,
                  h: R.Handler)
    requires R.Sound(m) && IsUp(m, level, svc) && DotFree(svc.start.service) && DotFree(responder)
    requires !level.AnySuffix? && IsTail(tail)
    ensures
      var hs := R.HandlersOf(FinalState(m, svc).registry, ResponseQueueName(responder, svc.start.service) + tail);
      (pattern in hs && hs[pattern] == h)
      <==> exists i :: 0 <= i < |svc.setups| && Registers(svc.setups[i], responder, tail, pattern, h)
  {
    var home := ResponseQueueName(responder, svc.start.service) + tail;
    RegisteredExactly(m, level, svc, home, pattern, h);
    if x, args :| AsksFor(m, svc, Binding(home, pattern, h, x, args)) {
      var i: nat :| AsksAt(m, svc, i, Binding(home, pattern, h, x, args));
      HomeIsForResponses(m, level, svc, i, Binding(home, pattern, h, x, args), responder, tail);
      assert Registers(svc.setups[i], responder, tail, pattern, h);
    }
    if i: nat :| i < |svc.setups| && Registers(svc.setups[i], responder, tail, pattern, h) {
      var b := BindingOf(svc.setups[i], StateAt(m, svc, i), svc.env).value;
      assert AsksAt(m, svc, i, b);
      HomeIsForResponses(m, level, svc, i, b, responder, tail);
      assert AsksFor(m, svc, Binding(home, pattern, h, b.exchange, b.args));
    }
  }

  /** Setup s handles responses of `responder` with this key, from the queue with this tail, with handler h. */
  predicate Awaits(m: R.Matcher, s: Setup, responder: string, tail: string, key: string, h: R.Handler) {
    ConsumesResponses(s, responder, tail) && m.matches(s.key, key) && s.handler == h
  }

  /** A response with a given key finds handler h in a response queue, in every iteration order, exactly when
      one of the service's setups is a response consumer for that queue with handler h and a pattern that
      matches the key; so it finds none exactly when none of the patterns matches. */
  lemma ResponseHandledExactly(m: R.Matcher, level: Suffixes, svc: Service, responder: string, tail: string,
                               key: string, order: seq<string>, h: R.Handler)
    requires R.Sound(m) && IsUp(m, level, svc) && DotFree(svc.start.service) && DotFree(responder)
    requires !level.AnySuffix? && IsTail(tail)
    requires
      var home := ResponseQueueName(responder, svc.start.service) + tail;
      IsOrder(R.HandlersOf(FinalState(m, svc).registry, home).Keys, order)
    ensures
      var hs := R.HandlersOf(FinalState(m, svc).registry, ResponseQueueName(responder, svc.start.service) + tail);
      && (R.FirstMatch(m, hs, order, key) == Some(h)
          <==> exists i :: 0 <= i < |svc.setups| && Awaits(m, svc.setups[i], responder, tail, key, h))
      && (R.FirstMatch(m, hs, order, key).Some?
          <==> exists i :: 0 <= i < |svc.setups| && ConsumesResponses(svc.setups[i], responder, tail)
                           && m.matches(svc.setups[i].key, key))
  {
    var home := ResponseQueueName(responder, svc.start.service) + tail;
    var hs := R.HandlersOf(FinalState(m, svc).registry, home);
    var found := R.FirstMatch(m, hs, order, key);
    TableIsDisjoint(m, level, svc, home);
    R.FirstMatchIsLookup(m, hs, order, key);
    if found.Some? {
      var p :| p in hs && m.matches(p, key) && hs[p] == found.value;
      HomeTable(m, level, svc, responder, tail, p, found.value);
      var i :| 0 <= i < |svc.setups| && Registers(svc.setups[i], responder, tail, p, found.value);
      assert Awaits(m, svc.setups[i], responder, tail, key, found.value);
    }
    forall i | 0 <= i < |svc.setups| && ConsumesResponses(svc.setups[i], responder, tail)
               && m.matches(svc.setups[i].key, key)
      ensures found == Some(svc.setups[i].handler)
    {
      var p, h' := svc.setups[i].key, svc.setups[i].handler;
      HomeTable(m, level, svc, responder, tail, p, h');
      assert Registers(svc.setups[i], responder, tail, p, h');
      R.MatchIsFound(m, hs, order, key, p);
    }
  }

  /** The exchange a setup binds to tells which kind of consumer it is. */
  lemma AskedExchange(m: R.Matcher, svc: Service, i: nat, b: Binding, x: ExchangeId)
    requires AsksAt(m, svc, i, b) && b.exchange == ExchangeName(x)
    ensures x.Responses? ==> svc.setups[i].ServiceResponseConsumer? && svc.setups[i].target == x.service
    ensures x.Requests? ==> svc.setups[i].ServiceRequestConsumer? && x.service == svc.start.service
  {
    StateKeepsService(m, svc, i);
    var y := match svc.setups[i]
      case ServiceRequestConsumer(_, _, _) => Requests(svc.start.service)
      case ServiceResponseConsumer(target, _, _, _) => Responses(target)
      case StreamConsumer(stream, _, _, _) => Stream(stream)
      case TransientStreamConsumer(stream, _, _, _) => Stream(stream)
      case _ => x;
    ExchangeNamesInjective(x, y);
  }

  /** Setup s of `service` takes responses of `responder` from this queue. */
  predicate TakesFrom(s: Setup, service: string, responder: string, queue: string) {
    && s.ServiceResponseConsumer? && s.target == responder
    && queue == ResponseQueueName(responder, service) + SuffixTail(s.opts)
  }

  /** A connection takes responses of a service from a queue exactly when one of its setups does. */
  lemma TakesResponsesExactly(m: R.Matcher, level: Suffixes, svc: Service, responder: string, queue: string)
    requires R.Sound(m) && IsUp(m, level, svc)
    ensures TakesResponses(FinalState(m, svc), responder, queue)
            <==> exists i :: 0 <= i < |svc.setups| && TakesFrom(svc.setups[i], svc.start.service, responder, queue)
  {
    var t, x := FinalState(m, svc).trace, ResponseExchange(responder);
    if k :| 0 <= k < |t| && IsResponseBinding(t[k], responder) && t[k].op.queue == queue {
      var b := Binding(queue, t[k].op.key, 0, x, t[k].op.args);
      assert IsBindOf(t[k], b);
      BoundExactly(m, level, svc, b);
      var h :| AsksFor(m, svc, b.(handler := h));
      var i: nat :| AsksAt(m, svc, i, b.(handler := h));
      AskedExchange(m, svc, i, b.(handler := h), Responses(responder));
      StateKeepsService(m, svc, i);
      assert TakesFrom(svc.setups[i], svc.start.service, responder, queue);
    }
    if i: nat :| i < |svc.setups| && TakesFrom(svc.setups[i], svc.start.service, responder, queue) {
      StateKeepsService(m, svc, i);
      var b := BindingOf(svc.setups[i], StateAt(m, svc, i), svc.env).value;
      assert AsksAt(m, svc, i, b) && b == b.(handler := b.handler);
      BoundExactly(m, level, svc, b);
      var k :| 0 <= k < |t| && IsBindOf(t[k], b);
      assert IsResponseBinding(t[k], responder);
    }
  }

  /** Setup s of `service` consumes requests with one of these keys from this queue. */
  predicate ServesRequests(s: Setup, service: string, keys: set<string>, queue: string) {
    s.ServiceRequestConsumer? && s.key in keys && queue == RequestQueueName(service) + SuffixTail(s.opts)
  }

  lemma RoutedRequestIsServed(m: R.Matcher, level: Suffixes, svc: Service, k: nat, keys: set<string>)
    requires R.Sound(m) && IsUp(m, level, svc) && k < |FinalState(m, svc).trace|
    requires
      var e := FinalState(m, svc).trace[k];
      IsAcceptedBind(e) && e.op.exchange == RequestExchange(svc.start.service) && e.op.key in keys
    ensures exists i :: 0 <= i < |svc.setups|
                        && ServesRequests(svc.setups[i], svc.start.service, keys, FinalState(m, svc).trace[k].op.queue)
  {
    var e := FinalState(m, svc).trace[k];
    var b := Binding(e.op.queue, e.op.key, 0, e.op.exchange, e.op.args);
    assert IsBindOf(e, b);
    BoundExactly(m, level, svc, b);
    var h :| AsksFor(m, svc, b.(handler := h));
    var i: nat :| AsksAt(m, svc, i, b.(handler := h));
    AskedExchange(m, svc, i, b.(handler := h), Requests(svc.start.service));
    StateKeepsService(m, svc, i);
    assert ServesRequests(svc.setups[i], svc.start.service, keys, e.op.queue);
  }

  lemma ServedRequestIsBound(m: R.Matcher, level: Suffixes, svc: Service, i: nat, keys: set<string>, queue: string)
    returns (k: nat)
    requires R.Sound(m) && IsUp(m, level, svc)
    requires i < |svc.setups| && ServesRequests(svc.setups[i], svc.start.service, keys, queue)
    ensures k < |FinalState(m, svc).trace|
    ensures
      var e := FinalState(m, svc).trace[k];
      && IsAcceptedBind(e) && e.op.exchange == RequestExchange(svc.start.service)
      && e.op.key in keys && e.op.queue == queue
  {
    StateKeepsService(m, svc, i);
    var b := BindingOf(svc.setups[i], StateAt(m, svc, i), svc.env).value;
    assert AsksAt(m, svc, i, b) && b == b.(handler := b.handler);
    BoundExactly(m, level, svc, b);
    k :| 0 <= k < |FinalState(m, svc).trace| && IsBindOf(FinalState(m, svc).trace[k], b);
  }

  /** A request is routed to a queue exactly when the queue belongs to a request consumer of the target for one of
      the request's routing keys. */
  lemma RequestRoutedExactly(m: R.Matcher, level: Suffixes, dep: map<string, Conn>, target: string, svc: Service,
                             msg: Message, s: string, queue: string)
    requires R.Sound(m) && Deployment(m, level, dep) && s in dep && msg.exchange == RequestExchange(target)
    requires target in dep && IsUp(m, level, svc) && svc.start.service == target && dep[target] == FinalState(m, svc)
    ensures RoutesTo(m, dep[s], msg, queue)
            <==> s == target
                 && exists i :: 0 <= i < |svc.setups|
                                && ServesRequests(svc.setups[i], target, RoutingKeys(msg), queue)
  {
    var t, keys := dep[s].trace, RoutingKeys(msg);
    if k: nat :| k < |t| && Routes(m, t[k], msg) && t[k].op.queue == queue {
      RequestReachesTarget(m, level, dep, target, msg, s, k);
      RoutedRequestIsServed(m, level, svc, k, keys);
    }
    if s == target {
      if i: nat :| i < |svc.setups| && ServesRequests(svc.setups[i], target, keys, queue) {
        var k := ServedRequestIsBound(m, level, svc, i, keys, queue);
        RequestReachesTarget(m, level, dep, target, msg, s, k);
      }
    }
  }

  /** A request that reaches the queue of a request consumer for its own key finds that consumer's handler, in
      every iteration order. */
  lemma RequestHandled(m: R.Matcher, level: Suffixes, svc: Service, i: nat, order: seq<string>)
    requires R.Sound(m) && IsUp(m, level, svc) && i < |svc.setups| && svc.setups[i].ServiceRequestConsumer?
    requires m.matches(svc.setups[i].key, svc.setups[i].key)
    requires
      var queue := RequestQueueName(svc.start.service) + SuffixTail(svc.setups[i].opts);
      IsOrder(R.HandlersOf(FinalState(m, svc).registry, queue).Keys, order)
    ensures
      var queue := RequestQueueName(svc.start.service) + SuffixTail(svc.setups[i].opts);
      var hs := R.HandlersOf(FinalState(m, svc).registry, queue);
      R.FirstMatch(m, hs, order, svc.setups[i].key) == Some(svc.setups[i].handler)
  {
    StateKeepsService(m, svc, i);
    var key, b := svc.setups[i].key, BindingOf(svc.setups[i], StateAt(m, svc, i), svc.env).value;
    assert AsksAt(m, svc, i, b) && b == Binding(b.queue, key, b.handler, b.exchange, b.args);
    RegisteredExactly(m, level, svc, b.queue, key, b.handler);
    TableIsDisjoint(m, level, svc, b.queue);
    var hs := R.HandlersOf(FinalState(m, svc).registry, b.queue);
    R.MatchIsFound(m, hs, order, key, key);
  }
}
