/** Setup functions: what each does to a connection, step by step, against a broker that may refuse any
    operation; and the consumer configuration they fold from their options. */
module Setups {
  import opened Basics
  import opened Naming
  import H = Headers
  import R = Registry

  // ---------------------------------------------------------------------------------------------
  // Consumer configuration
  // ---------------------------------------------------------------------------------------------

  /** consumerConfig */
  datatype Config = Config(key: string, handler: R.Handler, queue: string, exchange: string, kind: Kind,
                           queueArgs: Table, bindArgs: Table)

  /** ConsumerOptions. The last two are the closures ServiceResponseConsumer and
      TransientStreamConsumer append themselves; a caller cannot build them. */
  datatype Opt =
    | Suffix(suffix: string)
    | NoSingleActive
    | DeadLetter(exchange: string)
    | DeadLetterKey(key: string)
    | ServiceHeader(service: string)
    | ShortTtl

  predicate Internal(o: Opt) { o.ServiceHeader? || o.ShortTtl? }

  const SAC := "x-single-active-consumer"
  const QUEUE_TTL := "x-expires"   // amqp.QueueTTLArg
  const DLX := "x-dead-letter-exchange"
  const DLX_KEY := "x-dead-letter-routing-key"
  const QUEUE_TYPE := "x-queue-type"

  /** defaultQueueOpts; booleans and numbers are opaque header values. */
  const DEFAULT_QUEUE_ARGS: Table :=
    map[QUEUE_TYPE := Str("quorum"), SAC := NonStr(1), QUEUE_TTL := NonStr(432000000)]

  /** One option applied; None is an error. */
  function ApplyOpt(cfg: Config, o: Opt): Option<Config> {
    match o
    case Suffix(s) => if s == "" then None else Some(cfg.(queue := cfg.queue + "-" + s))
    case NoSingleActive => Some(cfg.(queueArgs := cfg.queueArgs[SAC := NonStr(0)]))
    case DeadLetter(e) => if e == "" then None else Some(cfg.(queueArgs := cfg.queueArgs[DLX := Str(e)]))
    case DeadLetterKey(k) => Some(cfg.(queueArgs := cfg.queueArgs[DLX_KEY := Str(k)]))
    case ServiceHeader(s) => Some(cfg.(bindArgs := cfg.bindArgs[H.SERVICE := Str(s)]))
    case ShortTtl => Some(cfg.(queueArgs := cfg.queueArgs[QUEUE_TTL := NonStr(1000)]))
  }

  function FoldOpts(cfg: Config, opts: seq<Opt>): Option<Config> {
    if opts == [] then Some(cfg)
    else match FoldOpts(cfg, opts[..|opts|-1])
      case None => None
      case Some(c) => ApplyOpt(c, opts[|opts|-1])
  }

  function BaseConfig(key: string, exchange: string, queue: string, kind: Kind, handler: R.Handler): Config {
    Config(key, handler, queue, exchange, kind, DEFAULT_QUEUE_ARGS, map[])
  }

  /** newConsumerConfig: the options in order, stopping at the first that fails. */
  method NewConsumerConfig(key: string, exchange: string, queue: string, kind: Kind, handler: R.Handler, opts: seq<Opt>)
    returns (r: Option<Config>)
    ensures r == FoldOpts(BaseConfig(key, exchange, queue, kind, handler), opts)
  {
    var cfg := BaseConfig(key, exchange, queue, kind, handler);
    for i := 0 to |opts|
      invariant FoldOpts(BaseConfig(key, exchange, queue, kind, handler), opts[..i]) == Some(cfg)
    {
      assert opts[..i+1][..i] == opts[..i];
      var next := ApplyOpt(cfg, opts[i]);
      if next.None? {
        FoldFails(BaseConfig(key, exchange, queue, kind, handler), opts, i + 1);
        return None;
      }
      cfg := next.value;
    }
    assert opts[..|opts|] == opts;
    return Some(cfg);
  }

  lemma {:induction false} FoldFails(cfg: Config, opts: seq<Opt>, i: nat)
    requires i <= |opts| && FoldOpts(cfg, opts[..i]).None?
    ensures FoldOpts(cfg, opts).None?
  {
    if i == |opts| {
      assert opts[..i] == opts;
    } else {
      assert opts[..|opts|-1][..i] == opts[..i];
      FoldFails(cfg, opts[..|opts|-1], i);
    }
  }

  predicate BadOpt(o: Opt) { (o.Suffix? && o.suffix == "") || (o.DeadLetter? && o.exchange == "") }

  /** What the suffix options append to the queue name. */
  function SuffixTail(opts: seq<Opt>): string {
    if opts == [] then ""
    else SuffixTail(opts[..|opts|-1])
         + if opts[|opts|-1].Suffix? then "-" + opts[|opts|-1].suffix else ""
  }

  /** The service of the last service-header option. */
  function LastService(opts: seq<Opt>): Option<string> {
    if opts == [] then None
    else if opts[|opts|-1].ServiceHeader? then Some(opts[|opts|-1].service)
    else LastService(opts[..|opts|-1])
  }

  /** c is base with the queue name extended by `tail` and `args` on the binding. */
  predicate Derived(base: Config, c: Config, tail: string, args: Table) {
    && c.key == base.key && c.handler == base.handler && c.exchange == base.exchange && c.kind == base.kind
    && c.queue == base.queue + tail && c.bindArgs == args
  }

  function BindArgs(service: Option<string>): Table {
    match service case None => map[] case Some(s) => map[H.SERVICE := Str(s)]
  }

  lemma ApplyMeaning(base: Config, c: Config, o: Opt, tail: string, service: Option<string>)
    requires Derived(base, c, tail, BindArgs(service))
    ensures ApplyOpt(c, o).None? <==> BadOpt(o)
    ensures ApplyOpt(c, o).Some? ==>
              Derived(base, ApplyOpt(c, o).value, tail + if o.Suffix? then "-" + o.suffix else "",
                      BindArgs(if o.ServiceHeader? then Some(o.service) else service))
  {
    if o.Suffix? {
      assert base.queue + tail + "-" + o.suffix == base.queue + (tail + ("-" + o.suffix));
    } else {
      assert tail + "" == tail;
    }
  }

  /** The fold fails exactly when some option is bad; otherwise routing key, handler, exchange and
      kind are as given, the queue name is the given one followed by the suffixes, and the binding
      carries nothing but the last service header. */
  lemma {:induction false} FoldMeaning(base: Config, opts: seq<Opt>)
    requires base.bindArgs == map[]
    ensures FoldOpts(base, opts).None? <==> exists i :: 0 <= i < |opts| && BadOpt(opts[i])
    ensures FoldOpts(base, opts).Some? ==>
              Derived(base, FoldOpts(base, opts).value, SuffixTail(opts), BindArgs(LastService(opts)))
  {
    if opts == [] {
      assert base.queue + "" == base.queue;
    } else {
      var n := |opts| - 1;
      FoldMeaning(base, opts[..n]);
      assert forall i :: 0 <= i < n ==> opts[..n][i] == opts[i];
      if FoldOpts(base, opts[..n]).Some? {
        ApplyMeaning(base, FoldOpts(base, opts[..n]).value, opts[n], SuffixTail(opts[..n]), LastService(opts[..n]));
      }
    }
  }

  function LastDeadLetter(opts: seq<Opt>): Option<string> {
    if opts == [] then None
    else if opts[|opts|-1].DeadLetter? then Some(opts[|opts|-1].exchange)
    else LastDeadLetter(opts[..|opts|-1])
  }

  function LastDeadLetterKey(opts: seq<Opt>): Option<string> {
    if opts == [] then None
    else if opts[|opts|-1].DeadLetterKey? then Some(opts[|opts|-1].key)
    else LastDeadLetterKey(opts[..|opts|-1])
  }

  /** The table holds the string under the key, or nothing if there is none. */
  predicate Holds(args: Table, key: string, v: Option<string>) {
    match v
    case None => key !in args
    case Some(x) => key in args && args[key] == Str(x)
  }

  /** args are the queue arguments that `opts` ask for. */
  ghost predicate ArgsFor(args: Table, opts: seq<Opt>) {
    && Holds(args, "x-queue-type", Some("quorum"))
    && "x-single-active-consumer" in args
    && args["x-single-active-consumer"] == NonStr(if NoSingleActive in opts then 0 else 1)
    && "x-expires" in args && args["x-expires"] == NonStr(if ShortTtl in opts then 1000 else 432000000)
    && Holds(args, "x-dead-letter-exchange", LastDeadLetter(opts))
    && Holds(args, "x-dead-letter-routing-key", LastDeadLetterKey(opts))
    && args.Keys <= {QUEUE_TYPE, SAC, QUEUE_TTL, DLX, DLX_KEY}
  }

  lemma ArgNamesDiffer()
    ensures SAC != QUEUE_TYPE && QUEUE_TTL != QUEUE_TYPE && DLX != QUEUE_TYPE && DLX_KEY != QUEUE_TYPE
    ensures SAC != QUEUE_TTL && SAC != DLX && SAC != DLX_KEY && QUEUE_TTL != DLX && QUEUE_TTL != DLX_KEY
    ensures DLX != DLX_KEY
  {
    assert SAC[2] == 's' && QUEUE_TTL[2] == 'e' && DLX[2] == 'd' && QUEUE_TYPE[2] == 'q' && DLX_KEY[2] == 'd';
    assert DLX_KEY[14] == 'r' && DLX[14] == 'e';
  }

  lemma AskedAppend(opts: seq<Opt>, o: Opt)
    ensures LastDeadLetter(opts + [o]) == if o.DeadLetter? then Some(o.exchange) else LastDeadLetter(opts)
    ensures LastDeadLetterKey(opts + [o]) == if o.DeadLetterKey? then Some(o.key) else LastDeadLetterKey(opts)
    ensures NoSingleActive in opts + [o] <==> NoSingleActive in opts || o == NoSingleActive
    ensures ShortTtl in opts + [o] <==> ShortTtl in opts || o == ShortTtl
  {
    assert (opts + [o])[..|opts|] == opts;
  }

  lemma NewDeadLetter(args: Table, opts: seq<Opt>, x: string)
    requires ArgsFor(args, opts)
    ensures ArgsFor(args[DLX := Str(x)], opts + [DeadLetter(x)])
  {
    ArgNamesDiffer();
    AskedAppend(opts, DeadLetter(x));
  }

  lemma NewDeadLetterKey(args: Table, opts: seq<Opt>, k: string)
    requires ArgsFor(args, opts)
    ensures ArgsFor(args[DLX_KEY := Str(k)], opts + [DeadLetterKey(k)])
  {
    ArgNamesDiffer();
    AskedAppend(opts, DeadLetterKey(k));
  }

  lemma NewSingleActive(args: Table, opts: seq<Opt>)
    requires ArgsFor(args, opts)
    ensures ArgsFor(args[SAC := NonStr(0)], opts + [NoSingleActive])
  {
    ArgNamesDiffer();
    AskedAppend(opts, NoSingleActive);
  }

  lemma NewTtl(args: Table, opts: seq<Opt>)
    requires ArgsFor(args, opts)
    ensures ArgsFor(args[QUEUE_TTL := NonStr(1000)], opts + [ShortTtl])
  {
    ArgNamesDiffer();
    AskedAppend(opts, ShortTtl);
  }

  /** One more option. */
  lemma ApplyArgs(cfg: Config, opts: seq<Opt>, o: Opt)
    requires ArgsFor(cfg.queueArgs, opts) && ApplyOpt(cfg, o).Some?
    ensures ArgsFor(ApplyOpt(cfg, o).value.queueArgs, opts + [o])
  {
    match o
    case Suffix(_) => AskedAppend(opts, o);
    case ServiceHeader(_) => AskedAppend(opts, o);
    case NoSingleActive => NewSingleActive(cfg.queueArgs, opts);
    case DeadLetter(x) => NewDeadLetter(cfg.queueArgs, opts, x);
    case DeadLetterKey(k) => NewDeadLetterKey(cfg.queueArgs, opts, k);
    case ShortTtl => NewTtl(cfg.queueArgs, opts);
  }

  /** The declared queue is a quorum queue; it has a single active consumer unless that was disabled,
      expires after five days unless a transient consumer shortened that to a second, has the last
      dead-letter exchange and routing key given, and no other arguments. */
  lemma {:induction false} QueueArgsMeaning(base: Config, opts: seq<Opt>)
    requires base.queueArgs == DEFAULT_QUEUE_ARGS && FoldOpts(base, opts).Some?
    ensures ArgsFor(FoldOpts(base, opts).value.queueArgs, opts)
  {
    if opts == [] {
      ArgNamesDiffer();
    } else {
      var n := |opts| - 1;
      QueueArgsMeaning(base, opts[..n]);
      ApplyArgs(FoldOpts(base, opts[..n]).value, opts[..n], opts[n]);
      assert opts == opts[..n] + [opts[n]];
    }
  }

  // ---------------------------------------------------------------------------------------------
  // The connection as setup functions see it
  // ---------------------------------------------------------------------------------------------

  /** Operations on the broker, with the channel they use. */
  datatype Op =
    | OpenChannel(ch: nat)
    | DeclareExchange(ch: nat, name: string, kind: Kind)
    | DeclareQueue(ch: nat, name: string, args: Table)
    | Bind(ch: nat, queue: string, key: string, exchange: string, args: Table)
    | NotifyPublish(ch: nat)
    | ConfirmMode(ch: nat)
    | Consume(ch: nat, queue: string)
    | CloseChannel(ch: nat)
    | CloseConnection

  datatype Event = Event(op: Op, ok: bool)

  datatype Direction = Publishes | Consumes
  datatype Pattern = EventStream | CustomStream | ServiceRequest | ServiceResponse | QueuePublish

  /** spec.Endpoint, without the message type's name. */
  datatype Endpoint = Endpoint(direction: Direction, pattern: Pattern, exchange: string, kind: Option<Kind>,
                               queue: string, key: string, ephemeral: bool)

  /** What Publisher.setup records in a publisher. */
  datatype Wiring = Wiring(exchange: string, service: string, defaults: seq<H.Header>)

  /** The headers given, then the service header. */
  function WiringFor(exchange: string, service: string, headers: seq<H.Header>): Wiring {
    Wiring(exchange, service, headers + [H.Header(H.SERVICE, Str(service))])
  }

  datatype Conn = Conn(
    service: string,
    setupChannel: nat,
    registry: R.Table,
    endpoints: seq<Endpoint>,
    wired: map<nat, Wiring>,   // by publisher
    channels: nat,             // channels opened so far
    draws: nat,                // random names drawn so far
    trace: seq<Event>
  )

  /** The broker refuses the i-th operation of the trace iff fails(i); rand(i) is the i-th random name. */
  datatype Env = Env(fails: nat -> bool, rand: nat -> string)

  datatype Ran = Ran(c: Conn, ok: bool)

  /** Setup functions of the library. A publisher is identified by a number; noConfirm is
      WithoutPublisherConfirms. Other covers the options that only store a value in the connection. */
  datatype Setup =
    | StreamPublisher(stream: string, publisher: nat, noConfirm: bool)
    | QueuePublisher(queue: string, publisher: nat, noConfirm: bool)
    | ServicePublisher(target: string, publisher: nat, noConfirm: bool)
    | StreamConsumer(stream: string, key: string, handler: R.Handler, opts: seq<Opt>)
    | TransientStreamConsumer(stream: string, key: string, handler: R.Handler, opts: seq<Opt>)
    | ServiceRequestConsumer(key: string, handler: R.Handler, opts: seq<Opt>)
    | ServiceResponseConsumer(target: string, key: string, handler: R.Handler, opts: seq<Opt>)
    | Other

  /** RequestResponseHandler is a ServiceRequestConsumer without options. */
  function RequestResponse(key: string, handler: R.Handler): Setup { ServiceRequestConsumer(key, handler, []) }

  /** What running a setup value leaves in it: two of the closures append an option to the slice they
      captured, before anything can fail. */
  function Reused(s: Setup, service: string): Setup {
    match s
    case ServiceResponseConsumer(t, k, h, opts) => ServiceResponseConsumer(t, k, h, opts + [ServiceHeader(service)])
    case TransientStreamConsumer(x, k, h, opts) => TransientStreamConsumer(x, k, h, opts + [ShortTtl])
    case _ => s
  }

  /** One broker operation. */
  function Do(c: Conn, env: Env, op: Op): Ran {
    Ran(c.(trace := c.trace + [Event(op, !env.fails(|c.trace|))]), !env.fails(|c.trace|))
  }

  /** c.connection.channel() */
  function Open(c: Conn, env: Env): Ran {
    var r := Do(c, env, OpenChannel(c.channels));
    r.(c := r.c.(channels := c.channels + 1))
  }

  function AddEndpoint(c: Conn, e: Endpoint): Conn { c.(endpoints := c.endpoints + [e]) }

  /** messageHandlerBindQueueToExchange */
  function BindQueue(m: R.Matcher, c: Conn, env: Env, cfg: Config): Ran {
    var c1 := c.(registry := R.Added(m, c.registry, cfg.queue, cfg.key, cfg.handler));
    if R.Clashes(m, c.registry, cfg.queue, cfg.key) then Ran(c1, false)
    else
      var r2 := Do(c1, env, DeclareExchange(c.setupChannel, cfg.exchange, cfg.kind));
      if !r2.ok then r2
      else
        var r3 := Do(r2.c, env, DeclareQueue(c.setupChannel, cfg.queue, cfg.queueArgs));
        if !r3.ok then r3
        else Do(r3.c, env, Bind(c.setupChannel, cfg.queue, cfg.key, cfg.exchange, cfg.bindArgs))
  }

  /** The common part of all consumer setups: fold the options, bind, record the endpoint. */
  function RunConsumer(m: R.Matcher, c: Conn, env: Env, base: Config, opts: seq<Opt>, pattern: Pattern,
                       ephemeral: bool): Ran
  {
    match FoldOpts(base, opts)
    case None => Ran(c, false)
    case Some(cfg) =>
      var r := BindQueue(m, c, env, cfg);
      if !r.ok then r
      else
        var e := Endpoint(Consumes, pattern, cfg.exchange, Some(base.kind), cfg.queue, base.key, ephemeral);
        Ran(AddEndpoint(r.c, e), true)
  }

  function StreamPattern(stream: string): Pattern { if stream == DEFAULT_STREAM then EventStream else CustomStream }

  /** Publisher.setup with valid headers, on channel ch. */
  function WirePublisher(c: Conn, env: Env, ch: nat, publisher: nat, noConfirm: bool, exchange: string,
                         headers: seq<H.Header>): Ran {
    var c1 := c.(wired := c.wired[publisher := WiringFor(exchange, c.service, headers)]);
    if noConfirm then Ran(c1, true)
    else Do(c1.(trace := c1.trace + [Event(NotifyPublish(ch), true)]), env, ConfirmMode(ch))
  }

  /** Open the publisher's channel, record the endpoint, wire the publisher. */
  function RunPublisher(c: Conn, env: Env, publisher: nat, noConfirm: bool, exchange: string, headers: seq<H.Header>,
                        e: Endpoint): Ran {
    var r := Open(c, env);
    if !r.ok then r
    else WirePublisher(AddEndpoint(r.c, e), env, c.channels, publisher, noConfirm, exchange, headers)
  }

  function CcHeader(queue: string): H.Header { H.Header("CC", Strs([queue])) }

  /** The connection after the declaration that opens a setup. */
  function Declared(c: Conn, env: Env, x: ExchangeId): Conn {
    Do(c, env, DeclareExchange(c.setupChannel, ExchangeName(x), KindOf(x))).c
  }

  predicate Declares(c: Conn, env: Env) { !env.fails(|c.trace|) }

  /** StreamPublisher and ServicePublisher: declare the exchange, then set up the publisher on it. */
  function RunExchangePublisher(c: Conn, env: Env, x: ExchangeId, pattern: Pattern, publisher: nat,
                                noConfirm: bool): Ran
  {
    if !Declares(c, env) then Ran(Declared(c, env, x), false)
    else RunPublisher(Declared(c, env, x), env, publisher, noConfirm, ExchangeName(x), [],
                      Endpoint(Publishes, pattern, ExchangeName(x), Some(KindOf(x)), "", "", false))
  }

  function RunQueuePublisher(c: Conn, env: Env, queue: string, publisher: nat, noConfirm: bool): Ran {
    RunPublisher(c, env, publisher, noConfirm, "", [CcHeader(queue)],
                 Endpoint(Publishes, QueuePublish, "(default)", None, queue, "", false))
  }

  function RunStream(m: R.Matcher, c: Conn, env: Env, stream: string, key: string, h: R.Handler, opts: seq<Opt>): Ran {
    RunConsumer(m, c, env,
                BaseConfig(key, TopicExchange(stream), EventQueueName(TopicExchange(stream), c.service), Topic, h),
                opts, StreamPattern(stream), false)
  }

  function TransientConfig(c: Conn, env: Env, stream: string, key: string, h: R.Handler): Config {
    var exchange := TopicExchange(stream);
    BaseConfig(key, exchange, RandomQueueName(exchange, c.service, env.rand(c.draws)), Topic, h)
  }

  function Drawn(c: Conn): Conn { c.(draws := c.draws + 1) }

  function RunTransient(m: R.Matcher, c: Conn, env: Env, stream: string, key: string, h: R.Handler,
                        opts: seq<Opt>): Ran
  {
    RunConsumer(m, Drawn(c), env, TransientConfig(c, env, stream, key, h), opts + [ShortTtl],
                StreamPattern(stream), true)
  }

  function RunRequests(m: R.Matcher, c: Conn, env: Env, key: string, h: R.Handler, opts: seq<Opt>): Ran {
    var d := Declared(c, env, Responses(c.service));
    if !Declares(c, env) then Ran(d, false)
    else RunConsumer(m, d, env,
                     BaseConfig(key, RequestExchange(c.service), RequestQueueName(c.service), Direct, h), opts,
                     ServiceRequest, false)
  }

  function RunResponses(m: R.Matcher, c: Conn, env: Env, target: string, key: string, h: R.Handler,
                        opts: seq<Opt>): Ran
  {
    RunConsumer(m, c, env,
                BaseConfig(key, ResponseExchange(target), ResponseQueueName(target, c.service), HeaderMatch, h),
                opts + [ServiceHeader(c.service)], ServiceResponse, false)
  }

  /** One setup function applied to a connection. */
  function RunSetup(m: R.Matcher, s: Setup, c: Conn, env: Env): Ran {
    match s
    case StreamPublisher(stream, p, noConfirm) =>
      RunExchangePublisher(c, env, Stream(stream), StreamPattern(stream), p, noConfirm)
    case QueuePublisher(queue, p, noConfirm) => RunQueuePublisher(c, env, queue, p, noConfirm)
    case ServicePublisher(target, p, noConfirm) =>
      RunExchangePublisher(c, env, Requests(target), ServiceRequest, p, noConfirm)
    case StreamConsumer(stream, key, h, opts) => RunStream(m, c, env, stream, key, h, opts)
    case TransientStreamConsumer(stream, key, h, opts) => RunTransient(m, c, env, stream, key, h, opts)
    case ServiceRequestConsumer(key, h, opts) => RunRequests(m, c, env, key, h, opts)
    case ServiceResponseConsumer(target, key, h, opts) => RunResponses(m, c, env, target, key, h, opts)
    case Other => Ran(c, true)
  }

  /** The setup loop: in order, stopping at the first failure. */
  function RunAll(m: R.Matcher, setups: seq<Setup>, c: Conn, env: Env): Ran {
    if setups == [] then Ran(c, true)
    else
      var r := RunAll(m, setups[..|setups|-1], c, env);
      if !r.ok then r else RunSetup(m, setups[|setups|-1], r.c, env)
  }

  /** A connection on which no setup has run. */
  function Fresh(service: string): Conn { Conn(service, 0, map[], [], map[], 0, 0, []) }
}
