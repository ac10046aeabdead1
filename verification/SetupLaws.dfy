/** What every sequence of setup functions keeps, whatever the broker refuses. */
module SetupLaws {
  import opened Basics
  import opened Naming
  import opened Setups
  import H = Headers
  import R = Registry

  // ---------------------------------------------------------------------------------------------
  // The invariant
  // ---------------------------------------------------------------------------------------------

  /** name is built by the builder for exchanges of this kind. */
  ghost predicate FitsKind(name: string, kind: Kind) {
    exists e: ExchangeId :: ExchangeName(e) == name && KindOf(e) == kind
  }

  function Owner(q: QueueId): string { if q.RequestQueue? then q.service else q.consumer }

  function BindArgsOf(q: QueueId): Table {
    if q.ResponseQueue? then map[H.SERVICE := Str(q.consumer)] else map[]
  }

  /** What queue-name suffixes response consumers may have. */
  datatype Suffixes = AnySuffix | DotFreeSuffix | NoSuffix

  predicate AllowsTail(level: Suffixes, tail: string) {
    match level
    case AnySuffix => true
    case DotFreeSuffix => IsTail(tail)
    case NoSuffix => tail == ""
  }

  predicate AllowsOpt(level: Suffixes, o: Opt) {
    o.Suffix? ==> level.AnySuffix? || (level.DotFreeSuffix? && DotFree(o.suffix))
  }

  /** queue is service's own queue q, followed by a random part or suffixes; response queues have a tail
      of the given kind only. */
  predicate IsQueue(service: string, level: Suffixes, queue: string, q: QueueId, tail: string) {
    && Owner(q) == service && queue == QueueName(q) + tail
    && (q.ResponseQueue? ==> AllowsTail(level, tail))
  }

  ghost predicate OwnQueue(service: string, level: Suffixes, queue: string) {
    exists q, tail :: IsQueue(service, level, queue, q, tail)
  }

  /** The binding attaches one of the service's own queues to the exchange that queue is meant for. */
  ghost predicate OwnBind(service: string, level: Suffixes, queue: string, exchange: string, args: Table) {
    exists q, tail :: IsQueue(service, level, queue, q, tail)
                      && exchange == ExchangeName(SourceOf(q)) && args == BindArgsOf(q)
  }

  ghost predicate EventOk(service: string, level: Suffixes, registry: R.Table, e: Event) {
    match e.op
    case DeclareExchange(_, n, k) => FitsKind(n, k)
    case Bind(_, q, key, x, args) => key in R.HandlersOf(registry, q) && OwnBind(service, level, q, x, args)
    case _ => true
  }

  ghost predicate TraceOk(level: Suffixes, c: Conn) {
    forall i :: 0 <= i < |c.trace| ==> EventOk(c.service, level, c.registry, c.trace[i])
  }

  ghost predicate RegistryOk(m: R.Matcher, level: Suffixes, c: Conn) {
    && R.AllDisjoint(m, c.registry)
    && (forall q :: q in c.registry ==> c.registry[q] != map[] && OwnQueue(c.service, level, q))
  }

  predicate ConsumesPair(e: Endpoint, queue: string, key: string) {
    e.direction.Consumes? && e.queue == queue && e.key == key
  }

  /** Consume endpoints stand for registered pairs, one each. */
  ghost predicate EndpointsOk(c: Conn) {
    && (forall i :: 0 <= i < |c.endpoints| && c.endpoints[i].direction.Consumes? ==>
          c.endpoints[i].key in R.HandlersOf(c.registry, c.endpoints[i].queue))
    && (forall i, j :: 0 <= i < j < |c.endpoints| && c.endpoints[i].direction.Consumes? ==>
          !ConsumesPair(c.endpoints[j], c.endpoints[i].queue, c.endpoints[i].key))
  }

  /** Every registered pair has its endpoint. */
  ghost predicate EndpointsComplete(c: Conn) {
    forall q, k :: k in R.HandlersOf(c.registry, q) ==>
      exists i :: 0 <= i < |c.endpoints| && ConsumesPair(c.endpoints[i], q, k)
  }

  ghost predicate Inv(m: R.Matcher, level: Suffixes, c: Conn) {
    RegistryOk(m, level, c) && TraceOk(level, c) && EndpointsOk(c)
  }

  /** The library's own options occur only where its closures put them. */
  ghost predicate Legit(s: Setup) {
    && (s.StreamConsumer? || s.ServiceRequestConsumer? || s.TransientStreamConsumer? ==>
          forall o :: o in s.opts ==> !o.ServiceHeader?)
    && (s.StreamConsumer? || s.ServiceRequestConsumer? || s.ServiceResponseConsumer? ==>
          forall o :: o in s.opts ==> !o.ShortTtl?)
  }

  /** The setup is one a caller can write, with suffixes of the given kind if it is a response consumer. */
  ghost predicate Admissible(level: Suffixes, s: Setup) {
    && Legit(s)
    && (s.ServiceResponseConsumer? ==> forall o :: o in s.opts ==> AllowsOpt(level, o))
  }

  // ---------------------------------------------------------------------------------------------
  // Preservation
  // ---------------------------------------------------------------------------------------------

  lemma {:induction false} NoService(opts: seq<Opt>)
    requires forall o :: o in opts ==> !o.ServiceHeader?
    ensures LastService(opts) == None
  {
    if opts != [] {
      NoService(opts[..|opts|-1]);
    }
  }

  lemma TailGrows(t: string, suffix: string)
    requires IsTail(t) && suffix != "" && DotFree(suffix)
    ensures IsTail(t + ("-" + suffix))
  {
    assert t == "" ==> t + ("-" + suffix) == "-" + suffix;
  }

  /** Suffixes of the allowed kind give a tail of that kind. */
  lemma {:induction false} TailIsAllowed(level: Suffixes, opts: seq<Opt>)
    requires forall o :: o in opts ==> AllowsOpt(level, o) && !BadOpt(o)
    ensures AllowsTail(level, SuffixTail(opts))
  {
    if opts != [] {
      var n := |opts| - 1;
      TailIsAllowed(level, opts[..n]);
      assert opts[n] in opts;
      if level.DotFreeSuffix? && opts[n].Suffix? {
        TailGrows(SuffixTail(opts[..n]), opts[n].suffix);
      }
    }
  }

  /** A successful add extends one queue's table and touches nothing else. */
  lemma AddedGrows(m: R.Matcher, t: R.Table, queue: string, key: string, h: R.Handler)
    ensures forall q, k :: k in R.HandlersOf(t, q) ==> k in R.HandlersOf(R.Added(m, t, queue, key, h), q)
    ensures !R.Clashes(m, t, queue, key) ==>
              forall q, k :: k in R.HandlersOf(R.Added(m, t, queue, key, h), q)
                             <==> k in R.HandlersOf(t, q) || (q == queue && k == key)
  {
  }

  lemma DoKeepsTrace(level: Suffixes, c: Conn, env: Env, op: Op)
    requires TraceOk(level, c) && forall ok :: EventOk(c.service, level, c.registry, Event(op, ok))
    ensures TraceOk(level, Do(c, env, op).c)
  {
  }

  lemma BindQueueTrace(m: R.Matcher, level: Suffixes, c: Conn, env: Env, cfg: Config)
    requires TraceOk(level, c) && FitsKind(cfg.exchange, cfg.kind)
    requires OwnBind(c.service, level, cfg.queue, cfg.exchange, cfg.bindArgs)
    ensures TraceOk(level, BindQueue(m, c, env, cfg).c)
  {
    AddedGrows(m, c.registry, cfg.queue, cfg.key, cfg.handler);
    if !R.Clashes(m, c.registry, cfg.queue, cfg.key) {
      var c1 := c.(registry := R.Added(m, c.registry, cfg.queue, cfg.key, cfg.handler));
      forall i | 0 <= i < |c1.trace|
        ensures EventOk(c1.service, level, c1.registry, c1.trace[i])
      {
        assert EventOk(c.service, level, c.registry, c.trace[i]);
      }
      var declare := DeclareExchange(c.setupChannel, cfg.exchange, cfg.kind);
      DoKeepsTrace(level, c1, env, declare);
      var c2 := Do(c1, env, declare).c;
      DoKeepsTrace(level, c2, env, DeclareQueue(c.setupChannel, cfg.queue, cfg.queueArgs));
      var c3 := Do(c2, env, DeclareQueue(c.setupChannel, cfg.queue, cfg.queueArgs)).c;
      DoKeepsTrace(level, c3, env, Bind(c.setupChannel, cfg.queue, cfg.key, cfg.exchange, cfg.bindArgs));
    }
  }

  lemma BindQueueRegistry(m: R.Matcher, level: Suffixes, c: Conn, env: Env, cfg: Config)
    requires R.Sound(m) && RegistryOk(m, level, c) && OwnQueue(c.service, level, cfg.queue)
    ensures RegistryOk(m, level, BindQueue(m, c, env, cfg).c)
  {
    R.AddKeepsDisjoint(m, c.registry, cfg.queue, cfg.key, cfg.handler);
    assert cfg.key in R.HandlersOf(c.registry, cfg.queue)[cfg.key := cfg.handler];
    assert BindQueue(m, c, env, cfg).c.registry == R.Added(m, c.registry, cfg.queue, cfg.key, cfg.handler);
  }

  lemma BindQueueFacts(m: R.Matcher, c: Conn, env: Env, cfg: Config)
    ensures
      var r := BindQueue(m, c, env, cfg);
      && r.c.service == c.service && r.c.endpoints == c.endpoints && r.c.draws == c.draws
      && r.c.registry == R.Added(m, c.registry, cfg.queue, cfg.key, cfg.handler)
      && (r.ok ==> !R.Clashes(m, c.registry, cfg.queue, cfg.key))
  {
  }

  lemma EndpointFrame(c: Conn, c': Conn)
    requires EndpointsOk(c) && c'.endpoints == c.endpoints
    requires forall q, k :: k in R.HandlersOf(c.registry, q) ==> k in R.HandlersOf(c'.registry, q)
    ensures EndpointsOk(c')
  {
  }

  lemma BindQueueInv(m: R.Matcher, level: Suffixes, c: Conn, env: Env, cfg: Config)
    requires R.Sound(m) && Inv(m, level, c) && FitsKind(cfg.exchange, cfg.kind)
    requires OwnBind(c.service, level, cfg.queue, cfg.exchange, cfg.bindArgs)
    ensures Inv(m, level, BindQueue(m, c, env, cfg).c)
  {
    BindQueueFacts(m, c, env, cfg);
    BindQueueRegistry(m, level, c, env, cfg);
    BindQueueTrace(m, level, c, env, cfg);
    AddedGrows(m, c.registry, cfg.queue, cfg.key, cfg.handler);
    EndpointFrame(c, BindQueue(m, c, env, cfg).c);
  }

  /** Registering a new pair and recording its endpoint keeps endpoints and registry in step. */
  lemma RegisterWithEndpoint(m: R.Matcher, c: Conn, c': Conn, queue: string, key: string, h: R.Handler, e: Endpoint)
    requires R.Sound(m) && EndpointsOk(c) && !R.Clashes(m, c.registry, queue, key)
    requires c'.registry == R.Added(m, c.registry, queue, key, h) && c'.endpoints == c.endpoints + [e]
    requires ConsumesPair(e, queue, key)
    ensures EndpointsOk(c')
    ensures EndpointsComplete(c) ==> EndpointsComplete(c')
  {
    AddedGrows(m, c.registry, queue, key, h);
    assert m.overlaps(key, key);
    assert key !in R.HandlersOf(c.registry, queue);
    var n := |c.endpoints|;
    assert c'.endpoints[n] == e;
    assert forall i :: 0 <= i < n ==> c'.endpoints[i] == c.endpoints[i];
    if EndpointsComplete(c) {
      forall q, k | k in R.HandlersOf(c'.registry, q)
        ensures exists i :: 0 <= i < |c'.endpoints| && ConsumesPair(c'.endpoints[i], q, k)
      {
        if k in R.HandlersOf(c.registry, q) {
          var i :| 0 <= i < n && ConsumesPair(c.endpoints[i], q, k);
          assert ConsumesPair(c'.endpoints[i], q, k);
        } else {
          assert ConsumesPair(c'.endpoints[n], q, k);
        }
      }
    }
  }

  lemma RunConsumerKeeps(m: R.Matcher, level: Suffixes, c: Conn, env: Env, base: Config, opts: seq<Opt>,
                         pattern: Pattern, ephemeral: bool, q: QueueId, tail: string)
    requires R.Sound(m) && Inv(m, level, c)
    requires base.bindArgs == map[] && BindArgs(LastService(opts)) == BindArgsOf(q)
    requires FoldOpts(base, opts).Some? ==> IsQueue(c.service, level, base.queue + SuffixTail(opts), q, tail)
    requires base.exchange == ExchangeName(SourceOf(q)) && base.kind == KindOf(SourceOf(q))
    ensures
      var r := RunConsumer(m, c, env, base, opts, pattern, ephemeral);
      && Inv(m, level, r.c) && r.c.service == c.service
      && (r.ok && EndpointsComplete(c) ==> EndpointsComplete(r.c))
  {
    FoldMeaning(base, opts);
    if FoldOpts(base, opts).Some? {
      var cfg := FoldOpts(base, opts).value;
      var b := BindQueue(m, c, env, cfg);
      BindQueueFacts(m, c, env, cfg);
      assert FitsKind(cfg.exchange, cfg.kind);
      BindQueueInv(m, level, c, env, cfg);
      if b.ok {
        var e := Endpoint(Consumes, pattern, cfg.exchange, Some(base.kind), cfg.queue, base.key, ephemeral);
        RegisterWithEndpoint(m, c, AddEndpoint(b.c, e), cfg.queue, cfg.key, cfg.handler, e);
      }
    }
  }

  /** What a setup must keep. */
  ghost predicate Keeps(m: R.Matcher, level: Suffixes, c: Conn, r: Ran) {
    && Inv(m, level, r.c) && r.c.service == c.service
    && (r.ok && EndpointsComplete(c) ==> EndpointsComplete(r.c))
  }

  /** c' differs from c by harmless operations and publish endpoints only. */
  ghost predicate Harmless(level: Suffixes, c: Conn, c': Conn) {
    && c'.service == c.service && c'.registry == c.registry && c.trace <= c'.trace && c.endpoints <= c'.endpoints
    && (forall i :: |c.trace| <= i < |c'.trace| ==> EventOk(c.service, level, c.registry, c'.trace[i]))
    && (forall i :: |c.endpoints| <= i < |c'.endpoints| ==> c'.endpoints[i].direction.Publishes?)
  }

  lemma HarmlessKeeps(m: R.Matcher, level: Suffixes, c: Conn, c': Conn)
    requires Inv(m, level, c) && Harmless(level, c, c')
    ensures Inv(m, level, c') && (EndpointsComplete(c) ==> EndpointsComplete(c'))
  {
    if EndpointsComplete(c) {
      forall q, k | k in R.HandlersOf(c.registry, q)
        ensures exists i :: 0 <= i < |c'.endpoints| && ConsumesPair(c'.endpoints[i], q, k)
      {
        var i :| 0 <= i < |c.endpoints| && ConsumesPair(c.endpoints[i], q, k);
        assert c'.endpoints[i] == c.endpoints[i];
      }
    }
  }

  lemma PublisherKeeps(m: R.Matcher, level: Suffixes, c: Conn, env: Env, publisher: nat, noConfirm: bool,
                       exchange: string, headers: seq<H.Header>, e: Endpoint)
    requires Inv(m, level, c) && e.direction.Publishes?
    ensures Keeps(m, level, c, RunPublisher(c, env, publisher, noConfirm, exchange, headers, e))
  {
    var r := RunPublisher(c, env, publisher, noConfirm, exchange, headers, e);
    assert Harmless(level, c, r.c);
    HarmlessKeeps(m, level, c, r.c);
  }

  lemma DeclareKeeps(m: R.Matcher, level: Suffixes, c: Conn, env: Env, x: ExchangeId)
    requires Inv(m, level, c)
    ensures Inv(m, level, Declared(c, env, x)) && (EndpointsComplete(c) ==> EndpointsComplete(Declared(c, env, x)))
  {
    assert FitsKind(ExchangeName(x), KindOf(x));
    HarmlessKeeps(m, level, c, Declared(c, env, x));
  }

  lemma ExchangePublisherKeeps(m: R.Matcher, level: Suffixes, c: Conn, env: Env, x: ExchangeId, pattern: Pattern,
                               publisher: nat, noConfirm: bool)
    requires Inv(m, level, c)
    ensures Keeps(m, level, c, RunExchangePublisher(c, env, x, pattern, publisher, noConfirm))
  {
    DeclareKeeps(m, level, c, env, x);
    PublisherKeeps(m, level, Declared(c, env, x), env, publisher, noConfirm, ExchangeName(x), [],
                   Endpoint(Publishes, pattern, ExchangeName(x), Some(KindOf(x)), "", "", false));
  }

  lemma LastServiceAppended(opts: seq<Opt>, o: Opt)
    ensures LastService(opts + [o]) == if o.ServiceHeader? then Some(o.service) else LastService(opts)
    ensures SuffixTail(opts + [o]) == SuffixTail(opts) + if o.Suffix? then "-" + o.suffix else ""
  {
    assert (opts + [o])[..|opts|] == opts;
  }

  lemma StreamKeeps(m: R.Matcher, level: Suffixes, c: Conn, env: Env, stream: string, key: string, h: R.Handler,
                    opts: seq<Opt>)
    requires R.Sound(m) && Inv(m, level, c) && forall o :: o in opts ==> !o.ServiceHeader?
    ensures Keeps(m, level, c, RunStream(m, c, env, stream, key, h, opts))
  {
    NoService(opts);
    RunConsumerKeeps(m, level, c, env,
                     BaseConfig(key, TopicExchange(stream), EventQueueName(TopicExchange(stream), c.service), Topic, h),
                     opts, StreamPattern(stream), false, EventQueue(stream, c.service), SuffixTail(opts));
  }

  lemma TransientKeeps(m: R.Matcher, level: Suffixes, c: Conn, env: Env, stream: string, key: string, h: R.Handler,
                       opts: seq<Opt>)
    requires R.Sound(m) && Inv(m, level, c) && forall o :: o in opts ==> !o.ServiceHeader?
    ensures Keeps(m, level, c, RunTransient(m, c, env, stream, key, h, opts))
  {
    var all, random := opts + [ShortTtl], env.rand(c.draws);
    NoService(all);
    TransientName(stream, c.service, random, SuffixTail(all));
    HarmlessKeeps(m, level, c, Drawn(c));
    RunConsumerKeeps(m, level, Drawn(c), env, TransientConfig(c, env, stream, key, h), all,
                     StreamPattern(stream), true, EventQueue(stream, c.service), "-" + random + SuffixTail(all));
  }

  lemma RequestsKeep(m: R.Matcher, level: Suffixes, c: Conn, env: Env, key: string, h: R.Handler, opts: seq<Opt>)
    requires R.Sound(m) && Inv(m, level, c) && forall o :: o in opts ==> !o.ServiceHeader?
    ensures Keeps(m, level, c, RunRequests(m, c, env, key, h, opts))
  {
    DeclareKeeps(m, level, c, env, Responses(c.service));
    NoService(opts);
    RunConsumerKeeps(m, level, Declared(c, env, Responses(c.service)), env,
                     BaseConfig(key, RequestExchange(c.service), RequestQueueName(c.service), Direct, h), opts,
                     ServiceRequest, false, RequestQueue(c.service), SuffixTail(opts));
  }

  lemma ResponsesKeep(m: R.Matcher, level: Suffixes, c: Conn, env: Env, target: string, key: string, h: R.Handler,
                      opts: seq<Opt>)
    requires R.Sound(m) && Inv(m, level, c) && forall o :: o in opts ==> AllowsOpt(level, o)
    ensures Keeps(m, level, c, RunResponses(m, c, env, target, key, h, opts))
  {
    var all := opts + [ServiceHeader(c.service)];
    LastServiceAppended(opts, ServiceHeader(c.service));
    var base := BaseConfig(key, ResponseExchange(target), ResponseQueueName(target, c.service), HeaderMatch, h);
    FoldMeaning(base, all);
    if FoldOpts(base, all).Some? {
      TailIsAllowed(level, all);
    }
    RunConsumerKeeps(m, level, c, env, base, all, ServiceResponse, false, ResponseQueue(target, c.service),
                     SuffixTail(all));
  }

  lemma SetupKeeps(m: R.Matcher, level: Suffixes, s: Setup, c: Conn, env: Env)
    requires R.Sound(m) && Inv(m, level, c) && Admissible(level, s)
    ensures Keeps(m, level, c, RunSetup(m, s, c, env))
  {
    match s
    case StreamPublisher(stream, p, noConfirm) =>
      ExchangePublisherKeeps(m, level, c, env, Stream(stream), StreamPattern(stream), p, noConfirm);
    case QueuePublisher(queue, p, noConfirm) =>
      PublisherKeeps(m, level, c, env, p, noConfirm, "", [CcHeader(queue)],
                     Endpoint(Publishes, QueuePublish, "(default)", None, queue, "", false));
    case ServicePublisher(target, p, noConfirm) =>
      ExchangePublisherKeeps(m, level, c, env, Requests(target), ServiceRequest, p, noConfirm);
    case StreamConsumer(stream, key, h, opts) => StreamKeeps(m, level, c, env, stream, key, h, opts);
    case TransientStreamConsumer(stream, key, h, opts) => TransientKeeps(m, level, c, env, stream, key, h, opts);
    case ServiceRequestConsumer(key, h, opts) => RequestsKeep(m, level, c, env, key, h, opts);
    case ServiceResponseConsumer(target, key, h, opts) => ResponsesKeep(m, level, c, env, target, key, h, opts);
    case Other =>
  }

  /** After any sequence of setups, whatever operations the broker refuses: the registry is disjoint
      per queue, every binding that was attempted has its routing key registered on its queue, and
      endpoints and registry agree; if all setups succeeded, every registered pair has its endpoint. */
  lemma {:induction false} AllSetupsKeep(m: R.Matcher, level: Suffixes, setups: seq<Setup>, c: Conn, env: Env)
    requires R.Sound(m) && Inv(m, level, c) && forall s :: s in setups ==> Admissible(level, s)
    ensures Keeps(m, level, c, RunAll(m, setups, c, env))
  {
    if setups != [] {
      AllSetupsKeep(m, level, setups[..|setups|-1], c, env);
      var r := RunAll(m, setups[..|setups|-1], c, env);
      if r.ok {
        assert setups[|setups|-1] in setups;
        SetupKeeps(m, level, setups[|setups|-1], r.c, env);
      }
    }
  }

  // ---------------------------------------------------------------------------------------------
  // Consequences
  // ---------------------------------------------------------------------------------------------

  /** A connection before its first setup: channels may have been opened, nothing else. */
  ghost predicate Untouched(c: Conn) {
    && c.registry == map[] && c.endpoints == [] && c.draws == 0 && c.wired == map[]
    && (forall i :: 0 <= i < |c.trace| ==> c.trace[i].op.OpenChannel? && c.trace[i].op.ch < c.channels)
    && (forall i, j :: 0 <= i < j < |c.trace| ==> c.trace[i].op != c.trace[j].op)
  }

  lemma UntouchedInv(m: R.Matcher, level: Suffixes, c: Conn)
    requires Untouched(c)
    ensures Inv(m, level, c) && EndpointsComplete(c)
  {
  }

  /** c is the state in which some sequence of setups, successful or not, leaves a connection. */
  ghost predicate Reached(m: R.Matcher, level: Suffixes, setups: seq<Setup>, start: Conn, env: Env, c: Conn) {
    && Untouched(start) && (forall s :: s in setups ==> Admissible(level, s))
    && c == RunAll(m, setups, start, env).c
  }

  lemma ReachedInv(m: R.Matcher, level: Suffixes, setups: seq<Setup>, start: Conn, env: Env, c: Conn)
    requires R.Sound(m) && Reached(m, level, setups, start, env, c)
    ensures Inv(m, level, c) && c.service == start.service
  {
    UntouchedInv(m, level, start);
    AllSetupsKeep(m, level, setups, start, env);
  }

  /** In every reachable state at most one kind was ever declared for an exchange name. */
  lemma OneKindPerExchange(m: R.Matcher, setups: seq<Setup>, start: Conn, env: Env, c: Conn, i: nat, j: nat)
    requires R.Sound(m) && Reached(m, AnySuffix, setups, start, env, c)
    requires i < |c.trace| && j < |c.trace| && c.trace[i].op.DeclareExchange? && c.trace[j].op.DeclareExchange?
    requires c.trace[i].op.name == c.trace[j].op.name
    ensures c.trace[i].op.kind == c.trace[j].op.kind
  {
    ReachedInv(m, AnySuffix, setups, start, env, c);
    assert EventOk(c.service, AnySuffix, c.registry, c.trace[i]);
    assert EventOk(c.service, AnySuffix, c.registry, c.trace[j]);
    var d :| ExchangeName(d) == c.trace[i].op.name && KindOf(d) == c.trace[i].op.kind;
    var e :| ExchangeName(e) == c.trace[j].op.name && KindOf(e) == c.trace[j].op.kind;
    ExchangeNamesInjective(d, e);
  }

  /** Registered (queue, pattern) pairs and consume endpoints correspond one to one: every pair has exactly one
      endpoint, and every consume endpoint stands for a pair. */
  ghost predicate EndpointBijection(registry: R.Table, endpoints: seq<Endpoint>) {
    && (forall q, k :: k in R.HandlersOf(registry, q)
          <==> exists i :: 0 <= i < |endpoints| && ConsumesPair(endpoints[i], q, k))
    && (forall q, k, i, j :: 0 <= i < j < |endpoints| && ConsumesPair(endpoints[i], q, k) ==>
          !ConsumesPair(endpoints[j], q, k))
  }

  lemma BijectionHolds(c: Conn)
    requires EndpointsOk(c) && EndpointsComplete(c)
    ensures EndpointBijection(c.registry, c.endpoints)
  {
  }
}
