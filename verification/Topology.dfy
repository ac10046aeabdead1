/** What a list of setups that all succeed has bound and registered: exactly what its consumers ask for. */
module Topology {
  import opened Basics
  import opened Naming
  import opened Setups
  import opened SetupLaws
  import opened SetupTrace
  import H = Headers
  import R = Registry

  datatype Binding = Binding(queue: string, key: string, handler: R.Handler, exchange: string, args: Table)

  /** The binding that setup s asks for on connection c, if it is a consumer. */
  function BindingOf(s: Setup, c: Conn, env: Env): Option<Binding> {
    match s
    case StreamConsumer(stream, key, h, opts) =>
      var x := TopicExchange(stream);
      Some(Binding(EventQueueName(x, c.service) + SuffixTail(opts), key, h, x, map[]))
    case TransientStreamConsumer(stream, key, h, opts) =>
      var x := TopicExchange(stream);
      Some(Binding(RandomQueueName(x, c.service, env.rand(c.draws)) + SuffixTail(opts), key, h, x, map[]))
    case ServiceRequestConsumer(key, h, opts) =>
      Some(Binding(RequestQueueName(c.service) + SuffixTail(opts), key, h, RequestExchange(c.service), map[]))
    case ServiceResponseConsumer(target, key, h, opts) =>
      Some(Binding(ResponseQueueName(target, c.service) + SuffixTail(opts), key, h, ResponseExchange(target),
                   map[H.SERVICE := Str(c.service)]))
    case _ => None
  }

  predicate IsAcceptedBind(e: Event) { e.ok && e.op.Bind? }

  predicate IsBindOf(e: Event, b: Binding) {
    && IsAcceptedBind(e) && e.op.queue == b.queue && e.op.key == b.key
    && e.op.exchange == b.exchange && e.op.args == b.args
  }

  /** From c to c' exactly the binding b, if any, was registered and accepted by the broker. */
  ghost predicate Effect(m: R.Matcher, c: Conn, c': Conn, b: Option<Binding>) {
    && c'.service == c.service && c.trace <= c'.trace
    && match b
       case None =>
         && c'.registry == c.registry
         && (forall i :: |c.trace| <= i < |c'.trace| ==> !IsAcceptedBind(c'.trace[i]))
       case Some(b) =>
         && !R.Clashes(m, c.registry, b.queue, b.key)
         && c'.registry == R.Added(m, c.registry, b.queue, b.key, b.handler)
         && (exists i :: |c.trace| <= i < |c'.trace| && IsBindOf(c'.trace[i], b))
         && (forall i :: |c.trace| <= i < |c'.trace| && IsAcceptedBind(c'.trace[i]) ==> IsBindOf(c'.trace[i], b))
  }

  lemma EffectAfter(m: R.Matcher, c: Conn, d: Conn, c': Conn, b: Option<Binding>)
    requires Effect(m, c, d, None) && Effect(m, d, c', b)
    ensures Effect(m, c, c', b)
  {
    if b.Some? {
      var i :| |d.trace| <= i < |c'.trace| && IsBindOf(c'.trace[i], b.value);
    }
  }

  lemma BindQueueEffect(m: R.Matcher, c: Conn, env: Env, cfg: Config)
    requires BindQueue(m, c, env, cfg).ok
    ensures Effect(m, c, BindQueue(m, c, env, cfg).c,
                   Some(Binding(cfg.queue, cfg.key, cfg.handler, cfg.exchange, cfg.bindArgs)))
  {
    var c' := BindQueue(m, c, env, cfg).c;
    assert IsAcceptedBind(c'.trace[|c.trace| + 2]);
  }

  lemma ConsumerEffect(m: R.Matcher, c: Conn, env: Env, base: Config, opts: seq<Opt>, pattern: Pattern,
                       ephemeral: bool)
    requires base.bindArgs == map[] && RunConsumer(m, c, env, base, opts, pattern, ephemeral).ok
    ensures Effect(m, c, RunConsumer(m, c, env, base, opts, pattern, ephemeral).c,
                   Some(Binding(base.queue + SuffixTail(opts), base.key, base.handler, base.exchange,
                                BindArgs(LastService(opts)))))
  {
    FoldMeaning(base, opts);
    BindQueueEffect(m, c, env, FoldOpts(base, opts).value);
  }

  lemma RequestsEffect(m: R.Matcher, c: Conn, env: Env, key: string, h: R.Handler, opts: seq<Opt>)
    requires RunRequests(m, c, env, key, h, opts).ok && forall o :: o in opts ==> !o.ServiceHeader?
    ensures Effect(m, c, RunRequests(m, c, env, key, h, opts).c,
                   BindingOf(ServiceRequestConsumer(key, h, opts), c, env))
  {
    var d := Declared(c, env, Responses(c.service));
    NoService(opts);
    ConsumerEffect(m, d, env, BaseConfig(key, RequestExchange(c.service), RequestQueueName(c.service), Direct, h), opts,
                   ServiceRequest, false);
    EffectAfter(m, c, d, RunRequests(m, c, env, key, h, opts).c,
                BindingOf(ServiceRequestConsumer(key, h, opts), c, env));
  }

  lemma ResponsesEffect(m: R.Matcher, c: Conn, env: Env, target: string, key: string, h: R.Handler, opts: seq<Opt>)
    requires RunResponses(m, c, env, target, key, h, opts).ok
    ensures Effect(m, c, RunResponses(m, c, env, target, key, h, opts).c,
                   BindingOf(ServiceResponseConsumer(target, key, h, opts), c, env))
  {
    var all := opts + [ServiceHeader(c.service)];
    LastServiceAppended(opts, ServiceHeader(c.service));
    assert SuffixTail(all) == SuffixTail(opts);
    assert BindArgs(LastService(all)) == map[H.SERVICE := Str(c.service)];
    var base := BaseConfig(key, ResponseExchange(target), ResponseQueueName(target, c.service), HeaderMatch, h);
    ConsumerEffect(m, c, env, base, all, ServiceResponse, false);
    assert RunConsumer(m, c, env, base, all, ServiceResponse, false) == RunResponses(m, c, env, target, key, h, opts);
  }

  lemma StreamEffect(m: R.Matcher, c: Conn, env: Env, stream: string, key: string, h: R.Handler, opts: seq<Opt>)
    requires RunStream(m, c, env, stream, key, h, opts).ok && forall o :: o in opts ==> !o.ServiceHeader?
    ensures Effect(m, c, RunStream(m, c, env, stream, key, h, opts).c,
                   BindingOf(StreamConsumer(stream, key, h, opts), c, env))
  {
    NoService(opts);
    ConsumerEffect(m, c, env,
                   BaseConfig(key, TopicExchange(stream), EventQueueName(TopicExchange(stream), c.service), Topic, h),
                   opts, StreamPattern(stream), false);
  }

  lemma TransientEffect(m: R.Matcher, c: Conn, env: Env, stream: string, key: string, h: R.Handler, opts: seq<Opt>)
    requires RunTransient(m, c, env, stream, key, h, opts).ok && forall o :: o in opts ==> !o.ServiceHeader?
    ensures Effect(m, c, RunTransient(m, c, env, stream, key, h, opts).c,
                   BindingOf(TransientStreamConsumer(stream, key, h, opts), c, env))
  {
    NoService(opts + [ShortTtl]);
    LastServiceAppended(opts, ShortTtl);
    assert SuffixTail(opts) + "" == SuffixTail(opts);
    ConsumerEffect(m, Drawn(c), env, TransientConfig(c, env, stream, key, h), opts + [ShortTtl],
                   StreamPattern(stream), true);
  }

  lemma PublisherEffect(m: R.Matcher, c: Conn, env: Env, publisher: nat, noConfirm: bool, exchange: string,
                        headers: seq<H.Header>, e: Endpoint)
    ensures Effect(m, c, RunPublisher(c, env, publisher, noConfirm, exchange, headers, e).c, None)
  {
  }

  lemma ExchangePublisherEffect(m: R.Matcher, c: Conn, env: Env, x: ExchangeId, pattern: Pattern, publisher: nat,
                                noConfirm: bool)
    ensures Effect(m, c, RunExchangePublisher(c, env, x, pattern, publisher, noConfirm).c, None)
  {
    var d, e := Declared(c, env, x), Endpoint(Publishes, pattern, ExchangeName(x), Some(KindOf(x)), "", "", false);
    PublisherEffect(m, d, env, publisher, noConfirm, ExchangeName(x), [], e);
    EffectAfter(m, c, d, RunPublisher(d, env, publisher, noConfirm, ExchangeName(x), [], e).c, None);
  }

  /** A successful setup registers and binds what it asks for and nothing else. */
  lemma SetupEffect(m: R.Matcher, s: Setup, c: Conn, env: Env)
    requires Legit(s) && RunSetup(m, s, c, env).ok
    ensures Effect(m, c, RunSetup(m, s, c, env).c, BindingOf(s, c, env))
  {
    match s
    case StreamPublisher(stream, p, noConfirm) =>
      ExchangePublisherEffect(m, c, env, Stream(stream), StreamPattern(stream), p, noConfirm);
    case QueuePublisher(queue, p, noConfirm) =>
      PublisherEffect(m, c, env, p, noConfirm, "", [CcHeader(queue)],
                      Endpoint(Publishes, QueuePublish, "(default)", None, queue, "", false));
    case ServicePublisher(target, p, noConfirm) =>
      ExchangePublisherEffect(m, c, env, Requests(target), ServiceRequest, p, noConfirm);
    case StreamConsumer(stream, key, h, opts) => StreamEffect(m, c, env, stream, key, h, opts);
    case TransientStreamConsumer(stream, key, h, opts) => TransientEffect(m, c, env, stream, key, h, opts);
    case ServiceRequestConsumer(key, h, opts) => RequestsEffect(m, c, env, key, h, opts);
    case ServiceResponseConsumer(target, key, h, opts) => ResponsesEffect(m, c, env, target, key, h, opts);
    case Other =>
  }

  // ---------------------------------------------------------------------------------------------
  // Whole lists of setups
  // ---------------------------------------------------------------------------------------------

  /** A service: what it sets up, and the connection and broker it does that with. */
  datatype Service = Service(setups: seq<Setup>, start: Conn, env: Env)

  function StateAt(m: R.Matcher, svc: Service, i: nat): Conn
    requires i <= |svc.setups|
  {
    RunAll(m, svc.setups[..i], svc.start, svc.env).c
  }

  function FinalState(m: R.Matcher, svc: Service): Conn { RunAll(m, svc.setups, svc.start, svc.env).c }

  /** All its setups succeeded, on an untouched connection; response consumers have suffixes of the given kind. */
  ghost predicate IsUp(m: R.Matcher, level: Suffixes, svc: Service) {
    && Untouched(svc.start) && (forall s :: s in svc.setups ==> Admissible(level, s))
    && RunAll(m, svc.setups, svc.start, svc.env).ok
  }

  /** The service without its last setup. */
  function Front(svc: Service): Service
    requires svc.setups != []
  {
    svc.(setups := svc.setups[..|svc.setups|-1])
  }

  /** The setup at position i asks for binding b. */
  ghost predicate AsksAt(m: R.Matcher, svc: Service, i: nat, b: Binding) {
    i < |svc.setups| && BindingOf(svc.setups[i], StateAt(m, svc, i), svc.env) == Some(b)
  }

  ghost predicate AsksFor(m: R.Matcher, svc: Service, b: Binding) {
    exists i: nat :: AsksAt(m, svc, i, b)
  }

  lemma AsksForNext(m: R.Matcher, svc: Service, b: Binding)
    requires svc.setups != []
    ensures AsksFor(m, svc, b) <==> AsksFor(m, Front(svc), b) || AsksAt(m, svc, |svc.setups| - 1, b)
  {
    var n := |svc.setups| - 1;
    assert forall i :: 0 <= i <= n ==> svc.setups[..n][..i] == svc.setups[..i];
    if i: nat :| AsksAt(m, svc, i, b) {
      if i < n {
        assert AsksAt(m, Front(svc), i, b);
      }
    }
    if i: nat :| AsksAt(m, Front(svc), i, b) {
      assert AsksAt(m, svc, i, b);
    }
  }

  lemma FrontIsUp(m: R.Matcher, level: Suffixes, svc: Service)
    requires IsUp(m, level, svc) && svc.setups != []
    ensures IsUp(m, level, Front(svc)) && Admissible(level, svc.setups[|svc.setups|-1])
    ensures StateAt(m, svc, |svc.setups| - 1) == FinalState(m, Front(svc))
    ensures RunSetup(m, svc.setups[|svc.setups|-1], FinalState(m, Front(svc)), svc.env) == Ran(FinalState(m, svc), true)
  {
    assert svc.setups[|svc.setups|-1] in svc.setups;
  }

  lemma LastEffect(m: R.Matcher, level: Suffixes, svc: Service)
    requires IsUp(m, level, svc) && svc.setups != []
    ensures IsUp(m, level, Front(svc))
    ensures
      var n := |svc.setups| - 1;
      && StateAt(m, svc, n) == FinalState(m, Front(svc))
      && Effect(m, FinalState(m, Front(svc)), FinalState(m, svc),
                BindingOf(svc.setups[n], FinalState(m, Front(svc)), svc.env))
  {
    FrontIsUp(m, level, svc);
    SetupEffect(m, svc.setups[|svc.setups|-1], FinalState(m, Front(svc)), svc.env);
  }

  /** When all setups succeed, a queue's table maps a pattern to a handler exactly when some setup asked for
      that. */
  lemma {:induction false} RegisteredExactly(m: R.Matcher, level: Suffixes, svc: Service, queue: string, key: string,
                                             h: R.Handler)
    requires R.Sound(m) && IsUp(m, level, svc)
    ensures
      var hs := R.HandlersOf(FinalState(m, svc).registry, queue);
      (key in hs && hs[key] == h) <==> exists x, args :: AsksFor(m, svc, Binding(queue, key, h, x, args))
    decreases |svc.setups|
  {
    if svc.setups != [] {
      var n, front := |svc.setups| - 1, Front(svc);
      LastEffect(m, level, svc);
      RegisteredExactly(m, level, front, queue, key, h);
      var last := BindingOf(svc.setups[n], FinalState(m, front), svc.env);
      var hs := R.HandlersOf(FinalState(m, front).registry, queue);
      var hs' := R.HandlersOf(FinalState(m, svc).registry, queue);
      assert last.Some? ==> m.overlaps(last.value.key, last.value.key);
      assert (key in hs' && hs'[key] == h) <==>
        (key in hs && hs[key] == h)
        || (last.Some? && last.value.queue == queue && last.value.key == key && last.value.handler == h);
      forall x, args
        ensures AsksFor(m, svc, Binding(queue, key, h, x, args))
                <==> AsksFor(m, front, Binding(queue, key, h, x, args)) || last == Some(Binding(queue, key, h, x, args))
      {
        AsksForNext(m, svc, Binding(queue, key, h, x, args));
      }
      if last.Some? && last.value.queue == queue && last.value.key == key && last.value.handler == h {
        assert last == Some(Binding(queue, key, h, last.value.exchange, last.value.args));
      }
    } else {
      forall x, args
        ensures !AsksFor(m, svc, Binding(queue, key, h, x, args))
      {
      }
    }
  }

  ghost predicate AcceptedBind(t: seq<Event>, b: Binding) {
    exists i :: 0 <= i < |t| && IsBindOf(t[i], b)
  }

  lemma NewBinds(m: R.Matcher, c: Conn, c': Conn, last: Option<Binding>, b: Binding)
    requires Effect(m, c, c', last)
    ensures AcceptedBind(c'.trace, b)
            <==> AcceptedBind(c.trace, b) || (last.Some? && last.value == b.(handler := last.value.handler))
  {
    if i :| 0 <= i < |c'.trace| && IsBindOf(c'.trace[i], b) {
      if i < |c.trace| {
        assert IsBindOf(c.trace[i], b);
      }
    }
    if i :| 0 <= i < |c.trace| && IsBindOf(c.trace[i], b) {
      assert IsBindOf(c'.trace[i], b);
    }
    if last.Some? && last.value == b.(handler := last.value.handler) {
      var i :| |c.trace| <= i < |c'.trace| && IsBindOf(c'.trace[i], last.value);
      assert IsBindOf(c'.trace[i], b);
    }
  }

  /** When all setups succeed, the broker has accepted a binding exactly when some setup asked for it. */
  lemma {:induction false} BoundExactly(m: R.Matcher, level: Suffixes, svc: Service, b: Binding)
    requires R.Sound(m) && IsUp(m, level, svc)
    ensures AcceptedBind(FinalState(m, svc).trace, b) <==> exists h :: AsksFor(m, svc, b.(handler := h))
    decreases |svc.setups|
  {
    if svc.setups != [] {
      var n, front := |svc.setups| - 1, Front(svc);
      LastEffect(m, level, svc);
      BoundExactly(m, level, front, b);
      var last := BindingOf(svc.setups[n], FinalState(m, front), svc.env);
      var t, t' := FinalState(m, front).trace, FinalState(m, svc).trace;
      NewBinds(m, FinalState(m, front), FinalState(m, svc), last, b);
      forall h
        ensures AsksFor(m, svc, b.(handler := h))
                <==> AsksFor(m, front, b.(handler := h)) || last == Some(b.(handler := h))
      {
        AsksForNext(m, svc, b.(handler := h));
      }
    } else {
      forall h
        ensures !AsksFor(m, svc, b.(handler := h))
      {
      }
    }
  }
}
