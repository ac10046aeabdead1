/** What the trace of broker operations, the wired publishers and the endpoints say about each other, in
    every state that setup functions reach. */
module SetupTrace {
  import opened Basics
  import opened Naming
  import opened Setups
  import opened SetupLaws
  import H = Headers
  import P = Publishing
  import R = Registry

  /** The broker accepted the declaration of this exchange before event i. */
  ghost predicate ExchangeDeclared(t: seq<Event>, i: nat, name: string, kind: Kind) {
    exists j :: 0 <= j < i && j < |t| && t[j].ok && t[j].op.DeclareExchange?
                && t[j].op.name == name && t[j].op.kind == kind
  }

  ghost predicate QueueDeclared(t: seq<Event>, i: nat, name: string) {
    exists j :: 0 <= j < i && j < |t| && t[j].ok && t[j].op.DeclareQueue? && t[j].op.name == name
  }

  /** Before a binding is attempted its exchange and its queue have been declared. */
  ghost predicate DeclaredFirst(t: seq<Event>) {
    forall i: nat :: i < |t| && t[i].op.Bind? ==>
      QueueDeclared(t, i, t[i].op.queue) && exists kind :: ExchangeDeclared(t, i, t[i].op.exchange, kind)
  }

  /** No channel is opened twice, and those opened so far have numbers below the counter. */
  ghost predicate ChannelsOk(c: Conn) {
    && (forall i :: 0 <= i < |c.trace| && c.trace[i].op.OpenChannel? ==> c.trace[i].op.ch < c.channels)
    && (forall i, j :: 0 <= i < j < |c.trace| && c.trace[i].op.OpenChannel? ==> c.trace[j].op != c.trace[i].op)
  }

  /** Every wired publisher stamps its messages with the connection's service name. */
  ghost predicate WiredOk(c: Conn) {
    forall p :: p in c.wired ==> c.wired[p].service == c.service && P.Defaults(c.wired[p].defaults, c.service)
  }

  ghost predicate Bound(t: seq<Event>, queue: string, key: string, exchange: string) {
    exists i :: 0 <= i < |t| && t[i].ok && t[i].op.Bind? && t[i].op.queue == queue && t[i].op.key == key
                && t[i].op.exchange == exchange
  }

  /** The broker accepted what the endpoint claims: a consume endpoint's binding, the exchange of
      either kind; only sending to a queue needs no exchange. */
  ghost predicate Backed(t: seq<Event>, e: Endpoint) {
    && (e.direction.Consumes? ==> e.kind.Some? && Bound(t, e.queue, e.key, e.exchange))
    && (e.kind.Some? ==> ExchangeDeclared(t, |t|, e.exchange, e.kind.value))
    && (e.kind.None? ==> e.direction.Publishes? && e.pattern.QueuePublish?)
  }

  ghost predicate EndpointsBacked(c: Conn) {
    forall i :: 0 <= i < |c.endpoints| ==> Backed(c.trace, c.endpoints[i])
  }

  ghost predicate Tidy(c: Conn) {
    DeclaredFirst(c.trace) && ChannelsOk(c) && WiredOk(c) && EndpointsBacked(c)
  }

  /** Setup functions neither consume nor close anything. */
  predicate SetupOp(op: Op) { !op.Consume? && !op.CloseChannel? && !op.CloseConnection? }

  /** c' is a later tidy state of the same connection, reached by setup operations. */
  ghost predicate Later(c: Conn, c': Conn) {
    && c'.service == c.service && c'.setupChannel == c.setupChannel && c.channels <= c'.channels
    && c.trace <= c'.trace && (forall i :: |c.trace| <= i < |c'.trace| ==> SetupOp(c'.trace[i].op))
    && (Tidy(c) ==> Tidy(c'))
  }

  lemma DeclarationsStay(t: seq<Event>, t': seq<Event>, i: nat, i': nat, name: string, kind: Kind)
    requires t <= t' && i <= i'
    ensures ExchangeDeclared(t, i, name, kind) ==> ExchangeDeclared(t', i', name, kind)
    ensures QueueDeclared(t, i, name) ==> QueueDeclared(t', i', name)
  {
  }

  lemma BackingStays(t: seq<Event>, t': seq<Event>, e: Endpoint)
    requires t <= t' && Backed(t, e)
    ensures Backed(t', e)
  {
    if e.kind.Some? {
      DeclarationsStay(t, t', |t|, |t'|, e.exchange, e.kind.value);
    }
    if e.direction.Consumes? {
      var i :| 0 <= i < |t| && t[i].ok && t[i].op.Bind? && t[i].op.queue == e.queue && t[i].op.key == e.key
               && t[i].op.exchange == e.exchange;
      assert t'[i] == t[i];
    }
  }

  /** c' is c after one more operation that is not a binding. */
  ghost predicate PlainStep(c: Conn, op: Op, ok: bool, c': Conn) {
    && !op.Bind? && c'.service == c.service && c'.setupChannel == c.setupChannel
    && c'.trace == c.trace + [Event(op, ok)] && c'.endpoints == c.endpoints && c'.wired == c.wired
    && c'.channels == c.channels + (if op.OpenChannel? then 1 else 0)
    && (op.OpenChannel? ==> op.ch == c.channels)
  }

  lemma PlainTidy(c: Conn, op: Op, ok: bool, c': Conn)
    requires PlainStep(c, op, ok, c')
    ensures Tidy(c) ==> Tidy(c')
  {
    if Tidy(c) {
      forall i: nat | i < |c'.trace| && c'.trace[i].op.Bind?
        ensures QueueDeclared(c'.trace, i, c'.trace[i].op.queue)
        ensures exists kind :: ExchangeDeclared(c'.trace, i, c'.trace[i].op.exchange, kind)
      {
        assert c'.trace[i] == c.trace[i];
        var kind :| ExchangeDeclared(c.trace, i, c.trace[i].op.exchange, kind);
        DeclarationsStay(c.trace, c'.trace, i, i, c.trace[i].op.exchange, kind);
        DeclarationsStay(c.trace, c'.trace, i, i, c.trace[i].op.queue, kind);
      }
      forall i | 0 <= i < |c'.endpoints|
        ensures Backed(c'.trace, c'.endpoints[i])
      {
        BackingStays(c.trace, c'.trace, c.endpoints[i]);
      }
    }
  }

  lemma PlainLater(c: Conn, op: Op, ok: bool, c': Conn)
    requires PlainStep(c, op, ok, c') && SetupOp(op)
    ensures Later(c, c')
  {
    PlainTidy(c, op, ok, c');
  }

  /** A binding of something already declared. */
  lemma BindStep(c: Conn, ch: nat, queue: string, key: string, exchange: string, args: Table, ok: bool, kind: Kind,
                 c': Conn)
    requires c' == c.(trace := c.trace + [Event(Bind(ch, queue, key, exchange, args), ok)])
    requires QueueDeclared(c.trace, |c.trace|, queue) && ExchangeDeclared(c.trace, |c.trace|, exchange, kind)
    ensures Later(c, c')
    ensures ok ==> Bound(c'.trace, queue, key, exchange)
    ensures ExchangeDeclared(c'.trace, |c'.trace|, exchange, kind)
  {
    var n := |c.trace|;
    assert c'.trace[n] == Event(Bind(ch, queue, key, exchange, args), ok);
    DeclarationsStay(c.trace, c'.trace, n, n, exchange, kind);
    DeclarationsStay(c.trace, c'.trace, n, n, queue, kind);
    DeclarationsStay(c.trace, c'.trace, n, n + 1, exchange, kind);
    if Tidy(c) {
      forall i: nat | i < |c'.trace| && c'.trace[i].op.Bind?
        ensures QueueDeclared(c'.trace, i, c'.trace[i].op.queue)
        ensures exists k :: ExchangeDeclared(c'.trace, i, c'.trace[i].op.exchange, k)
      {
        if i < n {
          assert c'.trace[i] == c.trace[i];
          var k :| ExchangeDeclared(c.trace, i, c.trace[i].op.exchange, k);
          DeclarationsStay(c.trace, c'.trace, i, i, c.trace[i].op.exchange, k);
          DeclarationsStay(c.trace, c'.trace, i, i, c.trace[i].op.queue, k);
        }
      }
      forall i | 0 <= i < |c'.endpoints|
        ensures Backed(c'.trace, c'.endpoints[i])
      {
        BackingStays(c.trace, c'.trace, c.endpoints[i]);
      }
    }
  }

  lemma LaterTrans(a: Conn, b: Conn, c: Conn)
    requires Later(a, b) && Later(b, c)
    ensures Later(a, c)
  {
  }

  /** messageHandlerBindQueueToExchange; on success the queue is bound to a declared exchange. */
  lemma BindQueueLater(m: R.Matcher, c: Conn, env: Env, cfg: Config)
    ensures
      var r := BindQueue(m, c, env, cfg);
      && Later(c, r.c)
      && (r.ok ==> Bound(r.c.trace, cfg.queue, cfg.key, cfg.exchange)
                   && ExchangeDeclared(r.c.trace, |r.c.trace|, cfg.exchange, cfg.kind))
  {
    var c1 := c.(registry := R.Added(m, c.registry, cfg.queue, cfg.key, cfg.handler));
    assert Later(c, c1);
    if !R.Clashes(m, c.registry, cfg.queue, cfg.key) {
      var op2 := DeclareExchange(c.setupChannel, cfg.exchange, cfg.kind);
      var r2 := Do(c1, env, op2);
      PlainLater(c1, op2, r2.ok, r2.c);
      LaterTrans(c, c1, r2.c);
      if r2.ok {
        var n := |c.trace|;
        assert r2.c.trace[n] == Event(op2, true);
        var op3 := DeclareQueue(c.setupChannel, cfg.queue, cfg.queueArgs);
        var r3 := Do(r2.c, env, op3);
        PlainLater(r2.c, op3, r3.ok, r3.c);
        LaterTrans(c, r2.c, r3.c);
        if r3.ok {
          assert r3.c.trace[n] == Event(op2, true) && r3.c.trace[n+1] == Event(op3, true);
          var r4 := BindQueue(m, c, env, cfg);
          BindStep(r3.c, c.setupChannel, cfg.queue, cfg.key, cfg.exchange, cfg.bindArgs, r4.ok, cfg.kind, r4.c);
          LaterTrans(c, r3.c, r4.c);
        }
      }
    }
  }

  lemma EndpointLater(c: Conn, e: Endpoint)
    requires Backed(c.trace, e)
    ensures Later(c, AddEndpoint(c, e))
  {
  }

  lemma ConsumerLater(m: R.Matcher, c: Conn, env: Env, base: Config, opts: seq<Opt>, pattern: Pattern, ephemeral: bool)
    requires base.bindArgs == map[]
    ensures
      var r := RunConsumer(m, c, env, base, opts, pattern, ephemeral);
      && Later(c, r.c)
      && (r.ok ==> Bound(r.c.trace, base.queue + SuffixTail(opts), base.key, base.exchange))
  {
    FoldMeaning(base, opts);
    if FoldOpts(base, opts).Some? {
      var cfg := FoldOpts(base, opts).value;
      var r := BindQueue(m, c, env, cfg);
      BindQueueLater(m, c, env, cfg);
      if r.ok {
        var e := Endpoint(Consumes, pattern, cfg.exchange, Some(base.kind), cfg.queue, base.key, ephemeral);
        EndpointLater(r.c, e);
        LaterTrans(c, r.c, AddEndpoint(r.c, e));
      }
    }
  }

  lemma WireLater(c: Conn, env: Env, ch: nat, publisher: nat, noConfirm: bool, exchange: string, headers: seq<H.Header>)
    ensures Later(c, WirePublisher(c, env, ch, publisher, noConfirm, exchange, headers).c)
  {
    var defaults := headers + [H.Header(H.SERVICE, Str(c.service))];
    assert P.Defaults(defaults, c.service);
    var c1 := c.(wired := c.wired[publisher := Wiring(exchange, c.service, defaults)]);
    assert Later(c, c1);
    if !noConfirm {
      var c2 := c1.(trace := c1.trace + [Event(NotifyPublish(ch), true)]);
      PlainLater(c1, NotifyPublish(ch), true, c2);
      var r := Do(c2, env, ConfirmMode(ch));
      PlainLater(c2, ConfirmMode(ch), r.ok, r.c);
      LaterTrans(c, c1, c2);
      LaterTrans(c, c2, r.c);
    }
  }

  lemma PublisherLater(c: Conn, env: Env, publisher: nat, noConfirm: bool, exchange: string, headers: seq<H.Header>,
                       e: Endpoint)
    requires Backed(c.trace, e)
    ensures Later(c, RunPublisher(c, env, publisher, noConfirm, exchange, headers, e).c)
  {
    var r := Open(c, env);
    PlainLater(c, OpenChannel(c.channels), r.ok, r.c);
    if r.ok {
      BackingStays(c.trace, r.c.trace, e);
      EndpointLater(r.c, e);
      var c2 := AddEndpoint(r.c, e);
      LaterTrans(c, r.c, c2);
      WireLater(c2, env, c.channels, publisher, noConfirm, exchange, headers);
      LaterTrans(c, c2, WirePublisher(c2, env, c.channels, publisher, noConfirm, exchange, headers).c);
    }
  }

  lemma DeclareLater(c: Conn, env: Env, e: ExchangeId)
    ensures Later(c, Declared(c, env, e))
    ensures !env.fails(|c.trace|) ==>
              ExchangeDeclared(Declared(c, env, e).trace, |Declared(c, env, e).trace|, ExchangeName(e), KindOf(e))
  {
    var d := Declared(c, env, e);
    PlainLater(c, DeclareExchange(c.setupChannel, ExchangeName(e), KindOf(e)), !env.fails(|c.trace|), d);
    assert d.trace[|c.trace|].op == DeclareExchange(c.setupChannel, ExchangeName(e), KindOf(e));
  }

  lemma ExchangePublisherLater(c: Conn, env: Env, x: ExchangeId, pattern: Pattern, publisher: nat, noConfirm: bool)
    ensures Later(c, RunExchangePublisher(c, env, x, pattern, publisher, noConfirm).c)
  {
    var d := Declared(c, env, x);
    DeclareLater(c, env, x);
    if Declares(c, env) {
      var e := Endpoint(Publishes, pattern, ExchangeName(x), Some(KindOf(x)), "", "", false);
      PublisherLater(d, env, publisher, noConfirm, ExchangeName(x), [], e);
      LaterTrans(c, d, RunPublisher(d, env, publisher, noConfirm, ExchangeName(x), [], e).c);
    }
  }

  lemma DrawLater(c: Conn)
    ensures Later(c, Drawn(c))
  {
  }

  lemma TransientLater(m: R.Matcher, c: Conn, env: Env, stream: string, key: string, h: R.Handler, opts: seq<Opt>)
    ensures Later(c, RunTransient(m, c, env, stream, key, h, opts).c)
  {
    DrawLater(c);
    ConsumerLater(m, Drawn(c), env, TransientConfig(c, env, stream, key, h), opts + [ShortTtl],
                  StreamPattern(stream), true);
    LaterTrans(c, Drawn(c), RunTransient(m, c, env, stream, key, h, opts).c);
  }

  lemma RequestsLater(m: R.Matcher, c: Conn, env: Env, key: string, h: R.Handler, opts: seq<Opt>)
    ensures Later(c, RunRequests(m, c, env, key, h, opts).c)
  {
    var d := Declared(c, env, Responses(c.service));
    DeclareLater(c, env, Responses(c.service));
    if Declares(c, env) {
      ConsumerLater(m, d, env,
                    BaseConfig(key, RequestExchange(c.service), RequestQueueName(c.service), Direct, h), opts,
                    ServiceRequest, false);
      LaterTrans(c, d, RunRequests(m, c, env, key, h, opts).c);
    }
  }

  /** A response consumer that succeeds is bound to its target's response exchange. */
  lemma ResponsesLater(m: R.Matcher, c: Conn, env: Env, target: string, key: string, h: R.Handler, opts: seq<Opt>)
    ensures
      var r := RunResponses(m, c, env, target, key, h, opts);
      Later(c, r.c) && (r.ok ==> exists queue :: Bound(r.c.trace, queue, key, ResponseExchange(target)))
  {
    ConsumerLater(m, c, env,
                  BaseConfig(key, ResponseExchange(target), ResponseQueueName(target, c.service), HeaderMatch, h),
                  opts + [ServiceHeader(c.service)], ServiceResponse, false);
  }

  lemma SetupLater(m: R.Matcher, s: Setup, c: Conn, env: Env)
    ensures Later(c, RunSetup(m, s, c, env).c)
  {
    match s
    case StreamPublisher(stream, p, noConfirm) =>
      ExchangePublisherLater(c, env, Stream(stream), StreamPattern(stream), p, noConfirm);
    case QueuePublisher(queue, p, noConfirm) =>
      PublisherLater(c, env, p, noConfirm, "", [CcHeader(queue)],
                     Endpoint(Publishes, QueuePublish, "(default)", None, queue, "", false));
    case ServicePublisher(target, p, noConfirm) =>
      ExchangePublisherLater(c, env, Requests(target), ServiceRequest, p, noConfirm);
    case StreamConsumer(stream, key, h, opts) =>
      ConsumerLater(m, c, env,
                    BaseConfig(key, TopicExchange(stream), EventQueueName(TopicExchange(stream), c.service), Topic, h),
                    opts, StreamPattern(stream), false);
    case TransientStreamConsumer(stream, key, h, opts) => TransientLater(m, c, env, stream, key, h, opts);
    case ServiceRequestConsumer(key, h, opts) => RequestsLater(m, c, env, key, h, opts);
    case ServiceResponseConsumer(target, key, h, opts) => ResponsesLater(m, c, env, target, key, h, opts);
    case Other =>
  }

  /** In every state that setups reach, refused operations included: a binding is attempted only after
      its queue and exchange were declared; every endpoint is backed by accepted declarations and, for a
      consumer, an accepted binding with its queue, key and exchange; every wired publisher's default
      headers name the connection's service; and what happened before is not undone. */
  lemma {:induction false} AllSetupsLater(m: R.Matcher, setups: seq<Setup>, c: Conn, env: Env)
    ensures Later(c, RunAll(m, setups, c, env).c)
  {
    if setups != [] {
      var r := RunAll(m, setups[..|setups|-1], c, env);
      AllSetupsLater(m, setups[..|setups|-1], c, env);
      if r.ok {
        SetupLater(m, setups[|setups|-1], r.c, env);
        LaterTrans(c, r.c, RunAll(m, setups, c, env).c);
      }
    }
  }

  lemma ReachedTidy(m: R.Matcher, level: Suffixes, setups: seq<Setup>, start: Conn, env: Env, c: Conn)
    requires Reached(m, level, setups, start, env, c)
    ensures Tidy(c) && c.service == start.service
  {
    AllSetupsLater(m, setups, start, env);
  }
}
