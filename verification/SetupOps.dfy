/** Everything a successful setup does: the operations it performs on the broker, in order, the endpoint it
    records and the publisher it wires. */
module SetupOps {
  import opened Basics
  import opened Naming
  import opened Setups
  import opened SetupLaws
  import opened Topology
  import SetupTrace
  import H = Headers
  import R = Registry

  // ---------------------------------------------------------------------------------------------
  // What is asked for
  // ---------------------------------------------------------------------------------------------

  predicate IsConsumer(s: Setup) {
    s.StreamConsumer? || s.TransientStreamConsumer? || s.ServiceRequestConsumer? || s.ServiceResponseConsumer?
  }

  predicate IsPublisher(s: Setup) { s.StreamPublisher? || s.QueuePublisher? || s.ServicePublisher? }

  /** The options that decide the queue's arguments. */
  function ArgOpts(s: Setup): seq<Opt>
    requires IsConsumer(s)
  {
    if s.TransientStreamConsumer? then s.opts + [ShortTtl] else s.opts
  }

  function KindAsked(s: Setup): Kind
    requires IsConsumer(s)
  {
    match s
    case ServiceRequestConsumer(_, _, _) => Direct
    case ServiceResponseConsumer(_, _, _, _) => HeaderMatch
    case _ => Topic
  }

  function PatternAsked(s: Setup): Pattern
    requires s != Other
  {
    match s
    case StreamPublisher(stream, _, _) => if stream == "events" then EventStream else CustomStream
    case StreamConsumer(stream, _, _, _) => if stream == "events" then EventStream else CustomStream
    case TransientStreamConsumer(stream, _, _, _) => if stream == "events" then EventStream else CustomStream
    case QueuePublisher(_, _, _) => QueuePublish
    case ServicePublisher(_, _, _) => ServiceRequest
    case ServiceRequestConsumer(_, _, _) => ServiceRequest
    case ServiceResponseConsumer(_, _, _, _) => ServiceResponse
  }

  /** A consumer binds its queue to its exchange after declaring both; a request consumer first declares the
      exchange its responses will go to. */
  ghost predicate ConsumerOps(s: Setup, c: Conn, env: Env, ops: seq<Op>, args: Table)
    requires IsConsumer(s)
  {
    var b, ch := BindingOf(s, c, env).value, c.setupChannel;
    && ArgsFor(args, ArgOpts(s))
    && ops == FirstOps(s, c)
              + [DeclareExchange(ch, b.exchange, KindAsked(s)), DeclareQueue(ch, b.queue, args),
                 Bind(ch, b.queue, b.key, b.exchange, b.args)]
  }

  function FirstOps(s: Setup, c: Conn): seq<Op> {
    if s.ServiceRequestConsumer? then [DeclareExchange(c.setupChannel, ResponseExchange(c.service), HeaderMatch)]
    else []
  }

  /** A publisher gets a channel of its own, with confirms unless they were disabled; its exchange, if it has
      one, is declared first. */
  function PublisherOps(s: Setup, c: Conn): seq<Op>
    requires IsPublisher(s)
  {
    (match s
     case StreamPublisher(stream, _, _) => [DeclareExchange(c.setupChannel, TopicExchange(stream), Topic)]
     case ServicePublisher(target, _, _) => [DeclareExchange(c.setupChannel, RequestExchange(target), Direct)]
     case QueuePublisher(_, _, _) => [])
    + [OpenChannel(c.channels)]
    + if s.noConfirm then [] else [NotifyPublish(c.channels), ConfirmMode(c.channels)]
  }

  /** The endpoint of a setup. */
  function EndpointAsked(s: Setup, c: Conn, env: Env): Endpoint
    requires s != Other
  {
    var pattern := PatternAsked(s);
    if IsConsumer(s) then
      var b := BindingOf(s, c, env).value;
      Endpoint(Consumes, pattern, b.exchange, Some(KindAsked(s)), b.queue, b.key, s.TransientStreamConsumer?)
    else match s
      case StreamPublisher(stream, _, _) =>
        Endpoint(Publishes, pattern, TopicExchange(stream), Some(Topic), "", "", false)
      case QueuePublisher(queue, _, _) => Endpoint(Publishes, pattern, "(default)", None, queue, "", false)
      case ServicePublisher(target, _, _) =>
        Endpoint(Publishes, pattern, RequestExchange(target), Some(Direct), "", "", false)
  }

  /** What a publisher setup records in its publisher. */
  function WiringAsked(s: Setup, service: string): Wiring
    requires IsPublisher(s)
  {
    var own := H.Header("service", Str(service));
    match s
    case StreamPublisher(stream, _, _) => Wiring(TopicExchange(stream), service, [own])
    case QueuePublisher(queue, _, _) => Wiring("", service, [H.Header("CC", Strs([queue])), own])
    case ServicePublisher(target, _, _) => Wiring(RequestExchange(target), service, [own])
  }

  function Succeeded(ops: seq<Op>): seq<Event> { seq(|ops|, i requires 0 <= i < |ops| => Event(ops[i], true)) }

  /** From c to c', a consumer setup did exactly what it asks for. */
  ghost predicate ConsumerDid(s: Setup, c: Conn, c': Conn, env: Env)
    requires IsConsumer(s)
  {
    && (exists ops, args :: ConsumerOps(s, c, env, ops, args) && c'.trace == c.trace + Succeeded(ops))
    && c'.endpoints == c.endpoints + [EndpointAsked(s, c, env)] && c'.wired == c.wired && c'.channels == c.channels
    && c'.draws == c.draws + if s.TransientStreamConsumer? then 1 else 0
  }

  /** From c to c', a publisher setup did exactly what it asks for. */
  ghost predicate PublisherDid(s: Setup, c: Conn, c': Conn, env: Env)
    requires IsPublisher(s)
  {
    && c'.trace == c.trace + Succeeded(PublisherOps(s, c))
    && c'.endpoints == c.endpoints + [EndpointAsked(s, c, env)]
    && c'.wired == c.wired[s.publisher := WiringAsked(s, c.service)] && c'.channels == c.channels + 1
    && c'.draws == c.draws
  }

  ghost predicate Did(s: Setup, c: Conn, c': Conn, env: Env) {
    if s == Other then c' == c
    else if IsConsumer(s) then ConsumerDid(s, c, c', env)
    else PublisherDid(s, c, c', env)
  }

  // ---------------------------------------------------------------------------------------------
  // One setup
  // ---------------------------------------------------------------------------------------------

  lemma ArgsIgnoreService(args: Table, opts: seq<Opt>, service: string)
    requires ArgsFor(args, opts + [ServiceHeader(service)])
    ensures ArgsFor(args, opts)
  {
    AskedAppend(opts, ServiceHeader(service));
  }

  /** The common part of all consumer setups. */
  lemma ConsumerDoes(m: R.Matcher, c: Conn, env: Env, base: Config, opts: seq<Opt>, pattern: Pattern,
                     ephemeral: bool)
    returns (args: Table)
    requires base.bindArgs == map[] && base.queueArgs == DEFAULT_QUEUE_ARGS
    requires RunConsumer(m, c, env, base, opts, pattern, ephemeral).ok
    ensures ArgsFor(args, opts)
    ensures
      var c' := RunConsumer(m, c, env, base, opts, pattern, ephemeral).c;
      var queue, ch := base.queue + SuffixTail(opts), c.setupChannel;
      && c'.trace == c.trace
                     + Succeeded([DeclareExchange(ch, base.exchange, base.kind), DeclareQueue(ch, queue, args),
                                  Bind(ch, queue, base.key, base.exchange, BindArgs(LastService(opts)))])
      && c'.endpoints == c.endpoints
                         + [Endpoint(Consumes, pattern, base.exchange, Some(base.kind), queue, base.key, ephemeral)]
      && c'.wired == c.wired && c'.channels == c.channels && c'.draws == c.draws
  {
    FoldMeaning(base, opts);
    QueueArgsMeaning(base, opts);
    args := FoldOpts(base, opts).value.queueArgs;
  }

  /** The steps above, put together. */
  lemma ConsumerDidFrom(s: Setup, c: Conn, c': Conn, env: Env, args: Table)
    requires IsConsumer(s) && !s.ServiceRequestConsumer? && ArgsFor(args, ArgOpts(s))
    requires
      var b, ch := BindingOf(s, c, env).value, c.setupChannel;
      && c'.trace == c.trace
                     + Succeeded([DeclareExchange(ch, b.exchange, KindAsked(s)), DeclareQueue(ch, b.queue, args),
                                  Bind(ch, b.queue, b.key, b.exchange, b.args)])
      && c'.endpoints == c.endpoints + [EndpointAsked(s, c, env)] && c'.wired == c.wired && c'.channels == c.channels
      && c'.draws == c.draws + if s.TransientStreamConsumer? then 1 else 0
    ensures ConsumerDid(s, c, c', env)
  {
    var ch, b := c.setupChannel, BindingOf(s, c, env).value;
    var ops := [DeclareExchange(ch, b.exchange, KindAsked(s)), DeclareQueue(ch, b.queue, args),
                Bind(ch, b.queue, b.key, b.exchange, b.args)];
    assert [] + ops == ops;
    assert ConsumerOps(s, c, env, ops, args);
  }

  lemma StreamDoes(m: R.Matcher, s: Setup, c: Conn, env: Env)
    requires s.StreamConsumer? && Legit(s) && RunSetup(m, s, c, env).ok
    ensures ConsumerDid(s, c, RunSetup(m, s, c, env).c, env)
  {
    var x := TopicExchange(s.stream);
    NoService(s.opts);
    var args := ConsumerDoes(m, c, env, BaseConfig(s.key, x, EventQueueName(x, c.service), Topic, s.handler), s.opts,
                             StreamPattern(s.stream), false);
    ConsumerDidFrom(s, c, RunSetup(m, s, c, env).c, env, args);
  }

  lemma TransientDoes(m: R.Matcher, s: Setup, c: Conn, env: Env)
    requires s.TransientStreamConsumer? && Legit(s) && RunSetup(m, s, c, env).ok
    ensures ConsumerDid(s, c, RunSetup(m, s, c, env).c, env)
  {
    NoService(s.opts + [ShortTtl]);
    LastServiceAppended(s.opts, ShortTtl);
    assert SuffixTail(s.opts + [ShortTtl]) == SuffixTail(s.opts);
    var args := ConsumerDoes(m, Drawn(c), env, TransientConfig(c, env, s.stream, s.key, s.handler),
                             s.opts + [ShortTtl], StreamPattern(s.stream), true);
    ConsumerDidFrom(s, c, RunSetup(m, s, c, env).c, env, args);
  }

  lemma ResponsesDo(m: R.Matcher, s: Setup, c: Conn, env: Env)
    requires s.ServiceResponseConsumer? && Legit(s) && RunSetup(m, s, c, env).ok
    ensures ConsumerDid(s, c, RunSetup(m, s, c, env).c, env)
  {
    var all := s.opts + [ServiceHeader(c.service)];
    LastServiceAppended(s.opts, ServiceHeader(c.service));
    assert SuffixTail(all) == SuffixTail(s.opts);
    assert BindArgs(LastService(all)) == map[H.SERVICE := Str(c.service)];
    var base := BaseConfig(s.key, ResponseExchange(s.target), ResponseQueueName(s.target, c.service), HeaderMatch,
                           s.handler);
    assert RunConsumer(m, c, env, base, all, ServiceResponse, false) == RunSetup(m, s, c, env);
    var args := ConsumerDoes(m, c, env, base, all, ServiceResponse, false);
    ArgsIgnoreService(args, s.opts, c.service);
    ConsumerDidFrom(s, c, RunSetup(m, s, c, env).c, env, args);
  }

  lemma RequestsDo(m: R.Matcher, s: Setup, c: Conn, env: Env)
    requires s.ServiceRequestConsumer? && Legit(s) && RunSetup(m, s, c, env).ok
    ensures ConsumerDid(s, c, RunSetup(m, s, c, env).c, env)
  {
    var d, ch := Declared(c, env, Responses(c.service)), c.setupChannel;
    NoService(s.opts);
    var args := ConsumerDoes(m, d, env,
                             BaseConfig(s.key, RequestExchange(c.service), RequestQueueName(c.service), Direct,
                                        s.handler), s.opts, ServiceRequest, false);
    var b := BindingOf(s, c, env).value;
    var first := [DeclareExchange(ch, ResponseExchange(c.service), HeaderMatch)];
    var rest := [DeclareExchange(ch, b.exchange, Direct), DeclareQueue(ch, b.queue, args),
                 Bind(ch, b.queue, b.key, b.exchange, b.args)];
    assert ConsumerOps(s, c, env, first + rest, args);
    assert d.trace == c.trace + Succeeded(first);
    assert Succeeded(first + rest) == Succeeded(first) + Succeeded(rest);
  }

  lemma PublisherDoes(s: Setup, c: Conn, env: Env, m: R.Matcher)
    requires IsPublisher(s) && RunSetup(m, s, c, env).ok
    ensures PublisherDid(s, c, RunSetup(m, s, c, env).c, env)
  {
    var c', own := RunSetup(m, s, c, env).c, H.Header("service", Str(c.service));
    assert c'.trace == c.trace + Succeeded(PublisherOps(s, c));
    match s
    case QueuePublisher(queue, p, _) =>
      assert [CcHeader(queue)] + [own] == [H.Header("CC", Strs([queue])), own];
    case StreamPublisher(stream, p, _) => assert [] + [own] == [own];
    case ServicePublisher(target, p, _) => assert [] + [own] == [own];
  }

  /** A successful setup does exactly what it asks for. */
  lemma SetupDoes(m: R.Matcher, s: Setup, c: Conn, env: Env)
    requires Legit(s) && RunSetup(m, s, c, env).ok
    ensures Did(s, c, RunSetup(m, s, c, env).c, env)
  {
    match s
    case Other =>
    case StreamConsumer(_, _, _, _) => StreamDoes(m, s, c, env);
    case TransientStreamConsumer(_, _, _, _) => TransientDoes(m, s, c, env);
    case ServiceRequestConsumer(_, _, _) => RequestsDo(m, s, c, env);
    case ServiceResponseConsumer(_, _, _, _) => ResponsesDo(m, s, c, env);
    case _ => PublisherDoes(s, c, env, m);
  }

  // ---------------------------------------------------------------------------------------------
  // When a setup succeeds
  // ---------------------------------------------------------------------------------------------

  /** The options are good and the pattern does not overlap one registered on the same queue. */
  ghost predicate Acceptable(m: R.Matcher, s: Setup, c: Conn, env: Env) {
    IsConsumer(s) ==>
      && (forall i :: 0 <= i < |s.opts| ==> !BadOpt(s.opts[i]))
      && !R.Clashes(m, c.registry, BindingOf(s, c, env).value.queue, BindingOf(s, c, env).value.key)
  }

  /** The broker refuses none of the setup's operations; registering for confirmations cannot be refused. */
  ghost predicate NothingRefused(s: Setup, c: Conn, env: Env) {
    var n := |c.trace|;
    match s
    case Other => true
    case StreamPublisher(_, _, noConfirm) => !env.fails(n) && !env.fails(n + 1) && (noConfirm || !env.fails(n + 3))
    case ServicePublisher(_, _, noConfirm) => !env.fails(n) && !env.fails(n + 1) && (noConfirm || !env.fails(n + 3))
    case QueuePublisher(_, _, noConfirm) => !env.fails(n) && (noConfirm || !env.fails(n + 2))
    case ServiceRequestConsumer(_, _, _) =>
      !env.fails(n) && !env.fails(n + 1) && !env.fails(n + 2) && !env.fails(n + 3)
    case _ => !env.fails(n) && !env.fails(n + 1) && !env.fails(n + 2)
  }

  lemma BindSucceedsExactly(m: R.Matcher, c: Conn, env: Env, cfg: Config)
    ensures BindQueue(m, c, env, cfg).ok
            <==> && !R.Clashes(m, c.registry, cfg.queue, cfg.key)
                 && !env.fails(|c.trace|) && !env.fails(|c.trace| + 1) && !env.fails(|c.trace| + 2)
  {
  }

  lemma ConsumerSucceedsExactly(m: R.Matcher, c: Conn, env: Env, base: Config, opts: seq<Opt>, pattern: Pattern,
                                ephemeral: bool)
    requires base.bindArgs == map[]
    ensures RunConsumer(m, c, env, base, opts, pattern, ephemeral).ok
            <==> && (forall i :: 0 <= i < |opts| ==> !BadOpt(opts[i]))
                 && !R.Clashes(m, c.registry, base.queue + SuffixTail(opts), base.key)
                 && !env.fails(|c.trace|) && !env.fails(|c.trace| + 1) && !env.fails(|c.trace| + 2)
  {
    FoldMeaning(base, opts);
    if FoldOpts(base, opts).Some? {
      BindSucceedsExactly(m, c, env, FoldOpts(base, opts).value);
    }
  }

  lemma GoodAppended(opts: seq<Opt>, o: Opt)
    requires !BadOpt(o)
    ensures (forall i :: 0 <= i < |opts| ==> !BadOpt(opts[i]))
            <==> forall i :: 0 <= i < |opts + [o]| ==> !BadOpt((opts + [o])[i])
  {
    if forall i :: 0 <= i < |opts + [o]| ==> !BadOpt((opts + [o])[i]) {
      forall i | 0 <= i < |opts|
        ensures !BadOpt(opts[i])
      {
        assert (opts + [o])[i] == opts[i];
      }
    }
  }

  lemma StreamSucceedsExactly(m: R.Matcher, s: Setup, c: Conn, env: Env)
    requires s.StreamConsumer?
    ensures RunSetup(m, s, c, env).ok <==> Acceptable(m, s, c, env) && NothingRefused(s, c, env)
  {
    var x := TopicExchange(s.stream);
    ConsumerSucceedsExactly(m, c, env, BaseConfig(s.key, x, EventQueueName(x, c.service), Topic, s.handler), s.opts,
                            StreamPattern(s.stream), false);
  }

  lemma TransientSucceedsExactly(m: R.Matcher, s: Setup, c: Conn, env: Env)
    requires s.TransientStreamConsumer?
    ensures RunSetup(m, s, c, env).ok <==> Acceptable(m, s, c, env) && NothingRefused(s, c, env)
  {
    var all := s.opts + [ShortTtl];
    GoodAppended(s.opts, ShortTtl);
    LastServiceAppended(s.opts, ShortTtl);
    assert SuffixTail(all) == SuffixTail(s.opts);
    ConsumerSucceedsExactly(m, Drawn(c), env, TransientConfig(c, env, s.stream, s.key, s.handler), all,
                            StreamPattern(s.stream), true);
  }

  lemma RequestsSucceedExactly(m: R.Matcher, s: Setup, c: Conn, env: Env)
    requires s.ServiceRequestConsumer?
    ensures RunSetup(m, s, c, env).ok <==> Acceptable(m, s, c, env) && NothingRefused(s, c, env)
  {
    ConsumerSucceedsExactly(m, Declared(c, env, Responses(c.service)), env,
                            BaseConfig(s.key, RequestExchange(c.service), RequestQueueName(c.service), Direct,
                                       s.handler), s.opts, ServiceRequest, false);
  }

  lemma ResponsesSucceedExactly(m: R.Matcher, s: Setup, c: Conn, env: Env)
    requires s.ServiceResponseConsumer?
    ensures RunSetup(m, s, c, env).ok <==> Acceptable(m, s, c, env) && NothingRefused(s, c, env)
  {
    var all := s.opts + [ServiceHeader(c.service)];
    GoodAppended(s.opts, ServiceHeader(c.service));
    LastServiceAppended(s.opts, ServiceHeader(c.service));
    assert SuffixTail(all) == SuffixTail(s.opts);
    var base := BaseConfig(s.key, ResponseExchange(s.target), ResponseQueueName(s.target, c.service), HeaderMatch,
                           s.handler);
    ConsumerSucceedsExactly(m, c, env, base, all, ServiceResponse, false);
    assert RunConsumer(m, c, env, base, all, ServiceResponse, false) == RunSetup(m, s, c, env);
  }

  /** A setup succeeds exactly when its options are good, its pattern overlaps no other on its queue, and the
      broker refuses none of its operations. */
  lemma SetupSucceedsExactly(m: R.Matcher, s: Setup, c: Conn, env: Env)
    ensures RunSetup(m, s, c, env).ok <==> Acceptable(m, s, c, env) && NothingRefused(s, c, env)
  {
    match s
    case StreamConsumer(_, _, _, _) => StreamSucceedsExactly(m, s, c, env);
    case TransientStreamConsumer(_, _, _, _) => TransientSucceedsExactly(m, s, c, env);
    case ServiceRequestConsumer(_, _, _) => RequestsSucceedExactly(m, s, c, env);
    case ServiceResponseConsumer(_, _, _, _) => ResponsesSucceedExactly(m, s, c, env);
    case _ =>
  }

  // ---------------------------------------------------------------------------------------------
  // What a failed setup leaves
  // ---------------------------------------------------------------------------------------------

  /** A setup stops at the first refusal. */
  ghost predicate StopsAtRefusal(c: Conn, c': Conn) {
    c.trace <= c'.trace && forall i :: |c.trace| <= i < |c'.trace| - 1 ==> c'.trace[i].ok
  }

  /** A failed consumer records no endpoint; its pattern stays registered if it got that far without overlap. */
  ghost predicate ConsumerLeft(m: R.Matcher, s: Setup, c: Conn, c': Conn, env: Env)
    requires IsConsumer(s)
  {
    var b := BindingOf(s, c, env).value;
    && StopsAtRefusal(c, c') && c'.endpoints == c.endpoints && c'.wired == c.wired
    && c'.registry == if (exists i :: 0 <= i < |s.opts| && BadOpt(s.opts[i]))
                         || (s.ServiceRequestConsumer? && env.fails(|c.trace|))
                      then c.registry
                      else R.Added(m, c.registry, b.queue, b.key, b.handler)
  }

  /** A failed publisher is wired, and has its endpoint, exactly if its channel could be opened. */
  ghost predicate PublisherLeft(s: Setup, c: Conn, c': Conn, env: Env)
    requires IsPublisher(s)
  {
    var n := |c.trace|;
    var gotChannel := !env.fails(n) && (s.QueuePublisher? || !env.fails(n + 1));
    && StopsAtRefusal(c, c') && c'.registry == c.registry
    && c'.endpoints == c.endpoints + (if gotChannel then [EndpointAsked(s, c, env)] else [])
    && c'.wired == if gotChannel then c.wired[s.publisher := WiringAsked(s, c.service)] else c.wired
  }

  lemma BindLeaves(m: R.Matcher, c: Conn, env: Env, cfg: Config)
    ensures
      var r := BindQueue(m, c, env, cfg);
      && StopsAtRefusal(c, r.c) && r.c.endpoints == c.endpoints && r.c.wired == c.wired
      && r.c.registry == R.Added(m, c.registry, cfg.queue, cfg.key, cfg.handler)
  {
  }

  lemma ConsumerLeaves(m: R.Matcher, c: Conn, env: Env, base: Config, opts: seq<Opt>, pattern: Pattern,
                       ephemeral: bool)
    requires base.bindArgs == map[] && !RunConsumer(m, c, env, base, opts, pattern, ephemeral).ok
    ensures
      var c' := RunConsumer(m, c, env, base, opts, pattern, ephemeral).c;
      && StopsAtRefusal(c, c') && c'.endpoints == c.endpoints && c'.wired == c.wired
      && c'.registry == if exists i :: 0 <= i < |opts| && BadOpt(opts[i]) then c.registry
                        else R.Added(m, c.registry, base.queue + SuffixTail(opts), base.key, base.handler)
  {
    FoldMeaning(base, opts);
    if FoldOpts(base, opts).Some? {
      BindLeaves(m, c, env, FoldOpts(base, opts).value);
    }
  }

  lemma StreamLeaves(m: R.Matcher, s: Setup, c: Conn, env: Env)
    requires s.StreamConsumer? && !RunSetup(m, s, c, env).ok
    ensures ConsumerLeft(m, s, c, RunSetup(m, s, c, env).c, env)
  {
    var x := TopicExchange(s.stream);
    ConsumerLeaves(m, c, env, BaseConfig(s.key, x, EventQueueName(x, c.service), Topic, s.handler), s.opts,
                   StreamPattern(s.stream), false);
  }

  lemma TransientLeaves(m: R.Matcher, s: Setup, c: Conn, env: Env)
    requires s.TransientStreamConsumer? && !RunSetup(m, s, c, env).ok
    ensures ConsumerLeft(m, s, c, RunSetup(m, s, c, env).c, env)
  {
    GoodAppended(s.opts, ShortTtl);
    LastServiceAppended(s.opts, ShortTtl);
    assert SuffixTail(s.opts + [ShortTtl]) == SuffixTail(s.opts);
    ConsumerLeaves(m, Drawn(c), env, TransientConfig(c, env, s.stream, s.key, s.handler), s.opts + [ShortTtl],
                   StreamPattern(s.stream), true);
  }

  lemma ResponsesLeave(m: R.Matcher, s: Setup, c: Conn, env: Env)
    requires s.ServiceResponseConsumer? && !RunSetup(m, s, c, env).ok
    ensures ConsumerLeft(m, s, c, RunSetup(m, s, c, env).c, env)
  {
    var all := s.opts + [ServiceHeader(c.service)];
    GoodAppended(s.opts, ServiceHeader(c.service));
    LastServiceAppended(s.opts, ServiceHeader(c.service));
    assert SuffixTail(all) == SuffixTail(s.opts);
    var base := BaseConfig(s.key, ResponseExchange(s.target), ResponseQueueName(s.target, c.service), HeaderMatch,
                           s.handler);
    assert RunConsumer(m, c, env, base, all, ServiceResponse, false) == RunSetup(m, s, c, env);
    ConsumerLeaves(m, c, env, base, all, ServiceResponse, false);
  }

  lemma RequestsLeave(m: R.Matcher, s: Setup, c: Conn, env: Env)
    requires s.ServiceRequestConsumer? && !RunSetup(m, s, c, env).ok
    ensures ConsumerLeft(m, s, c, RunSetup(m, s, c, env).c, env)
  {
    if !env.fails(|c.trace|) {
      var d := Declared(c, env, Responses(c.service));
      ConsumerLeaves(m, d, env,
                     BaseConfig(s.key, RequestExchange(c.service), RequestQueueName(c.service), Direct, s.handler),
                     s.opts, ServiceRequest, false);
      assert d.trace[|c.trace|].ok;
    }
  }

  lemma WireLeaves(c: Conn, env: Env, publisher: nat, noConfirm: bool, exchange: string, headers: seq<H.Header>,
                   e: Endpoint)
    requires !RunPublisher(c, env, publisher, noConfirm, exchange, headers, e).ok
    ensures
      var c' := RunPublisher(c, env, publisher, noConfirm, exchange, headers, e).c;
      var gotChannel := !env.fails(|c.trace|);
      && StopsAtRefusal(c, c') && c'.registry == c.registry
      && c'.endpoints == c.endpoints + (if gotChannel then [e] else [])
      && c'.wired == if gotChannel then c.wired[publisher := WiringFor(exchange, c.service, headers)] else c.wired
  {
  }

  /** WireLeaves after the declaration of the exchange. */
  lemma DeclaredLeaves(c: Conn, d: Conn, c': Conn)
    requires c.trace <= d.trace && |d.trace| == |c.trace| + 1 && d.trace[|c.trace|].ok
    requires StopsAtRefusal(d, c')
    ensures StopsAtRefusal(c, c')
  {
  }

  lemma ExchangePublisherLeaves(c: Conn, env: Env, x: ExchangeId, pattern: Pattern, publisher: nat, noConfirm: bool)
    requires !RunExchangePublisher(c, env, x, pattern, publisher, noConfirm).ok
    ensures
      var c', n := RunExchangePublisher(c, env, x, pattern, publisher, noConfirm).c, |c.trace|;
      var gotChannel := !env.fails(n) && !env.fails(n + 1);
      var e := Endpoint(Publishes, pattern, ExchangeName(x), Some(KindOf(x)), "", "", false);
      && StopsAtRefusal(c, c') && c'.registry == c.registry
      && c'.endpoints == c.endpoints + (if gotChannel then [e] else [])
      && c'.wired == if gotChannel then c.wired[publisher := WiringFor(ExchangeName(x), c.service, [])] else c.wired
  {
    if !env.fails(|c.trace|) {
      var d, e := Declared(c, env, x), Endpoint(Publishes, pattern, ExchangeName(x), Some(KindOf(x)), "", "", false);
      WireLeaves(d, env, publisher, noConfirm, ExchangeName(x), [], e);
      DeclaredLeaves(c, d, RunPublisher(d, env, publisher, noConfirm, ExchangeName(x), [], e).c);
    }
  }

  lemma PublisherLeaves(m: R.Matcher, s: Setup, c: Conn, env: Env)
    requires IsPublisher(s) && !RunSetup(m, s, c, env).ok
    ensures PublisherLeft(s, c, RunSetup(m, s, c, env).c, env)
  {
    var own := H.Header("service", Str(c.service));
    match s
    case StreamPublisher(stream, p, noConfirm) =>
      ExchangePublisherLeaves(c, env, Stream(stream), StreamPattern(stream), p, noConfirm);
      assert [] + [own] == [own];
    case ServicePublisher(target, p, noConfirm) =>
      ExchangePublisherLeaves(c, env, Requests(target), ServiceRequest, p, noConfirm);
      assert [] + [own] == [own];
    case QueuePublisher(queue, p, noConfirm) =>
      assert [CcHeader(queue)] + [own] == [H.Header("CC", Strs([queue])), own];
      WireLeaves(c, env, p, noConfirm, "", [CcHeader(queue)], EndpointAsked(s, c, env));
  }

  /** What a setup that fails leaves behind, whatever made it fail. */
  lemma SetupLeaves(m: R.Matcher, s: Setup, c: Conn, env: Env)
    requires !RunSetup(m, s, c, env).ok
    ensures
      var c' := RunSetup(m, s, c, env).c;
      if IsConsumer(s) then ConsumerLeft(m, s, c, c', env) else IsPublisher(s) && PublisherLeft(s, c, c', env)
  {
    match s
    case StreamConsumer(_, _, _, _) => StreamLeaves(m, s, c, env);
    case TransientStreamConsumer(_, _, _, _) => TransientLeaves(m, s, c, env);
    case ServiceRequestConsumer(_, _, _) => RequestsLeave(m, s, c, env);
    case ServiceResponseConsumer(_, _, _, _) => ResponsesLeave(m, s, c, env);
    case _ => PublisherLeaves(m, s, c, env);
  }

  // ---------------------------------------------------------------------------------------------
  // Whole lists of setups
  // ---------------------------------------------------------------------------------------------

  lemma LastDid(m: R.Matcher, level: Suffixes, svc: Service)
    requires IsUp(m, level, svc) && svc.setups != []
    ensures IsUp(m, level, Front(svc)) && StateAt(m, svc, |svc.setups| - 1) == FinalState(m, Front(svc))
    ensures Did(svc.setups[|svc.setups|-1], FinalState(m, Front(svc)), FinalState(m, svc), svc.env)
  {
    FrontIsUp(m, level, svc);
    SetupDoes(m, svc.setups[|svc.setups|-1], FinalState(m, Front(svc)), svc.env);
  }

  /** The endpoints the setups ask for, in order. */
  ghost function EndpointsAsked(m: R.Matcher, svc: Service): seq<Endpoint>
    decreases |svc.setups|
  {
    if svc.setups == [] then []
    else
      var n := |svc.setups| - 1;
      EndpointsAsked(m, Front(svc))
      + if svc.setups[n] == Other then [] else [EndpointAsked(svc.setups[n], StateAt(m, svc, n), svc.env)]
  }

  /** When all setups succeed, the topology lists exactly the endpoints they ask for, in order. */
  lemma {:induction false} EndpointsExactly(m: R.Matcher, level: Suffixes, svc: Service)
    requires IsUp(m, level, svc)
    ensures FinalState(m, svc).endpoints == EndpointsAsked(m, svc)
    decreases |svc.setups|
  {
    if svc.setups != [] {
      LastDid(m, level, svc);
      EndpointsExactly(m, level, Front(svc));
    }
  }

  /** The last setup for publisher p is at position i. */
  ghost predicate WiresLast(setups: seq<Setup>, i: nat, p: nat) {
    && i < |setups| && IsPublisher(setups[i]) && setups[i].publisher == p
    && (forall j :: i < j < |setups| && IsPublisher(setups[j]) ==> setups[j].publisher != p)
  }

  predicate Wires(s: Setup, p: nat) { IsPublisher(s) && s.publisher == p }

  lemma DidWire(s: Setup, c: Conn, c': Conn, env: Env, p: nat)
    requires Did(s, c, c', env)
    ensures Wires(s, p) ==> p in c'.wired && c'.wired[p] == WiringAsked(s, c.service)
    ensures !Wires(s, p) ==> (p in c'.wired <==> p in c.wired) && (p in c.wired ==> c'.wired[p] == c.wired[p])
  {
  }

  /** The position of the last setup for publisher p. */
  function LastFor(setups: seq<Setup>, p: nat): Option<nat> {
    if setups == [] then None
    else if Wires(setups[|setups|-1], p) then Some(|setups| - 1)
    else LastFor(setups[..|setups|-1], p)
  }

  lemma {:induction false} LastForMeaning(setups: seq<Setup>, p: nat, i: nat)
    ensures LastFor(setups, p) == Some(i) <==> WiresLast(setups, i, p)
  {
    if setups != [] {
      var n := |setups| - 1;
      LastForMeaning(setups[..n], p, i);
    }
  }

  /** Publisher p is wired as the last of the setups for it asks, or not at all. */
  ghost predicate WiredAs(wired: map<nat, Wiring>, setups: seq<Setup>, service: string, p: nat) {
    match LastFor(setups, p)
    case None => p !in wired
    case Some(i) => i < |setups| && Wires(setups[i], p) && p in wired && wired[p] == WiringAsked(setups[i], service)
  }

  lemma WiredNext(s: Setup, c: Conn, c': Conn, env: Env, setups: seq<Setup>, p: nat)
    requires Did(s, c, c', env) && setups != [] && setups[|setups|-1] == s
    requires WiredAs(c.wired, setups[..|setups|-1], c.service, p)
    ensures WiredAs(c'.wired, setups, c.service, p)
  {
    DidWire(s, c, c', env, p);
  }

  lemma ServiceStays(m: R.Matcher, svc: Service)
    ensures FinalState(m, svc).service == svc.start.service
  {
    SetupTrace.AllSetupsLater(m, svc.setups, svc.start, svc.env);
  }

  /** When all setups succeed, a publisher is wired exactly as the last setup for it asks, and no other is. */
  lemma {:induction false} WiredExactly(m: R.Matcher, level: Suffixes, svc: Service, p: nat)
    requires IsUp(m, level, svc)
    ensures WiredAs(FinalState(m, svc).wired, svc.setups, svc.start.service, p)
    decreases |svc.setups|
  {
    if svc.setups != [] {
      var n, front := |svc.setups| - 1, Front(svc);
      LastDid(m, level, svc);
      WiredExactly(m, level, front, p);
      ServiceStays(m, front);
      WiredNext(svc.setups[n], FinalState(m, front), FinalState(m, svc), svc.env, svc.setups, p);
    }
  }

  /** The setup at position i declares this queue with these arguments. */
  ghost predicate DeclaresAt(m: R.Matcher, svc: Service, i: nat, queue: string, args: Table) {
    && i < |svc.setups| && IsConsumer(svc.setups[i]) && ArgsFor(args, ArgOpts(svc.setups[i]))
    && BindingOf(svc.setups[i], StateAt(m, svc, i), svc.env).value.queue == queue
  }

  ghost predicate Declares(m: R.Matcher, svc: Service, queue: string, args: Table) {
    exists i: nat :: DeclaresAt(m, svc, i, queue, args)
  }

  predicate IsDeclaration(e: Event, queue: string, args: Table) {
    e.ok && e.op.DeclareQueue? && e.op.name == queue && e.op.args == args
  }

  ghost predicate DeclaredWith(t: seq<Event>, queue: string, args: Table) {
    exists i :: 0 <= i < |t| && IsDeclaration(t[i], queue, args)
  }

  /** Arguments are determined by the options. */
  lemma ArgsUnique(a: Table, b: Table, opts: seq<Opt>)
    requires ArgsFor(a, opts) && ArgsFor(b, opts)
    ensures a == b
  {
    ArgNamesDiffer();
    assert a.Keys == b.Keys;
  }

  lemma DeclaresNext(m: R.Matcher, svc: Service, queue: string, args: Table)
    requires svc.setups != []
    ensures Declares(m, svc, queue, args)
            <==> Declares(m, Front(svc), queue, args) || DeclaresAt(m, svc, |svc.setups| - 1, queue, args)
  {
    var n := |svc.setups| - 1;
    assert forall i :: 0 <= i <= n ==> svc.setups[..n][..i] == svc.setups[..i];
    if i: nat :| DeclaresAt(m, svc, i, queue, args) {
      if i < n {
        assert DeclaresAt(m, Front(svc), i, queue, args);
      }
    }
    if i: nat :| DeclaresAt(m, Front(svc), i, queue, args) {
      assert DeclaresAt(m, svc, i, queue, args);
    }
  }

  lemma DidDeclares(s: Setup, c: Conn, c': Conn, env: Env, queue: string, args: Table)
    requires Did(s, c, c', env)
    ensures DeclaredWith(c'.trace, queue, args)
            <==> DeclaredWith(c.trace, queue, args)
                 || (IsConsumer(s) && ArgsFor(args, ArgOpts(s)) && BindingOf(s, c, env).value.queue == queue)
  {
    if IsConsumer(s) {
      var ops, args' :| ConsumerOps(s, c, env, ops, args') && c'.trace == c.trace + Succeeded(ops);
      ConsumerDeclares(s, c, env, ops, args', c'.trace, queue, args);
    } else if s != Other {
      PublisherDeclaresNothing(s, c, c'.trace, queue, args);
    }
  }

  lemma AppendedDeclares(t: seq<Event>, ops: seq<Op>, queue: string, args: Table)
    ensures DeclaredWith(t + Succeeded(ops), queue, args)
            <==> DeclaredWith(t, queue, args)
                 || exists i :: 0 <= i < |ops| && ops[i].DeclareQueue? && ops[i].name == queue && ops[i].args == args
  {
    var t' := t + Succeeded(ops);
    if i :| 0 <= i < |t'| && IsDeclaration(t'[i], queue, args) {
      if i < |t| {
        assert IsDeclaration(t[i], queue, args);
      } else {
        assert ops[i - |t|].DeclareQueue?;
      }
    }
    if i :| 0 <= i < |t| && IsDeclaration(t[i], queue, args) {
      assert IsDeclaration(t'[i], queue, args);
    }
    if i :| 0 <= i < |ops| && ops[i].DeclareQueue? && ops[i].name == queue && ops[i].args == args {
      assert IsDeclaration(t'[|t| + i], queue, args);
    }
  }

  lemma ConsumerDeclares(s: Setup, c: Conn, env: Env, ops: seq<Op>, args': Table, t': seq<Event>, queue: string,
                         args: Table)
    requires IsConsumer(s) && ConsumerOps(s, c, env, ops, args') && t' == c.trace + Succeeded(ops)
    ensures DeclaredWith(t', queue, args)
            <==> DeclaredWith(c.trace, queue, args)
                 || (ArgsFor(args, ArgOpts(s)) && BindingOf(s, c, env).value.queue == queue)
  {
    AppendedDeclares(c.trace, ops, queue, args);
    var k := if s.ServiceRequestConsumer? then 2 else 1;
    assert ops[k] == DeclareQueue(c.setupChannel, BindingOf(s, c, env).value.queue, args');
    assert forall i :: 0 <= i < |ops| && i != k ==> !ops[i].DeclareQueue?;
    if ArgsFor(args, ArgOpts(s)) {
      ArgsUnique(args, args', ArgOpts(s));
    }
  }

  lemma PublisherDeclaresNothing(s: Setup, c: Conn, t': seq<Event>, queue: string, args: Table)
    requires IsPublisher(s) && t' == c.trace + Succeeded(PublisherOps(s, c))
    ensures DeclaredWith(t', queue, args) <==> DeclaredWith(c.trace, queue, args)
  {
    AppendedDeclares(c.trace, PublisherOps(s, c), queue, args);
    assert forall i :: 0 <= i < |PublisherOps(s, c)| ==> !PublisherOps(s, c)[i].DeclareQueue?;
  }

  /** When all setups succeed, the broker has accepted the declaration of a queue with given arguments exactly when
      some consumer's options ask for that. */
  lemma {:induction false} DeclaredExactly(m: R.Matcher, level: Suffixes, svc: Service, queue: string, args: Table)
    requires IsUp(m, level, svc)
    ensures DeclaredWith(FinalState(m, svc).trace, queue, args) <==> Declares(m, svc, queue, args)
    decreases |svc.setups|
  {
    if svc.setups == [] {
      assert forall i: nat :: !DeclaresAt(m, svc, i, queue, args);
    } else {
      LastDid(m, level, svc);
      DeclaredExactly(m, level, Front(svc), queue, args);
      DeclaresNext(m, svc, queue, args);
      DidDeclares(svc.setups[|svc.setups|-1], FinalState(m, Front(svc)), FinalState(m, svc), svc.env, queue, args);
    }
  }
}
