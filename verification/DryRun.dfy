/** Collecting the topology without a broker agrees with really starting. */
module DryRun {
  import opened Basics
  import opened Naming
  import opened Setups
  import H = Headers
  import R = Registry

  ghost predicate NeverFails(env: Env) { forall i: nat :: !env.fails(i) }

  ghost predicate SameNames(e: Env, e': Env) { forall i: nat :: e.rand(i) == e'.rand(i) }

  /** Equal in everything a setup's success and endpoints depend on; traces and channels may differ. */
  predicate Agree(c: Conn, c': Conn) {
    c.service == c'.service && c.registry == c'.registry && c.endpoints == c'.endpoints && c.draws == c'.draws
  }

  ghost predicate MoreInternal(opts: seq<Opt>, opts': seq<Opt>) {
    opts <= opts' && forall i :: |opts| <= i < |opts'| ==> Internal(opts'[i])
  }

  /** s' is the setup value s after any number of earlier runs, on whatever connections. */
  ghost predicate Stale(s: Setup, s': Setup) {
    match s
    case TransientStreamConsumer(x, k, h, opts) =>
      s'.TransientStreamConsumer? && s' == TransientStreamConsumer(x, k, h, s'.opts) && MoreInternal(opts, s'.opts)
    case ServiceResponseConsumer(t, k, h, opts) =>
      s'.ServiceResponseConsumer? && s' == ServiceResponseConsumer(t, k, h, s'.opts) && MoreInternal(opts, s'.opts)
    case _ => s' == s
  }

  /** Running a setup value once more keeps it a stale copy of the original. */
  lemma ReuseIsStale(s: Setup, s': Setup, service: string)
    requires Stale(s, s')
    ensures Stale(s, Reused(s', service)) && Stale(s, s)
  {
  }

  /** The options a closure adds change neither whether the fold fails nor the queue name. */
  lemma {:induction false} MoreInternalSame(opts: seq<Opt>, opts': seq<Opt>)
    requires MoreInternal(opts, opts')
    ensures (exists i :: 0 <= i < |opts| && BadOpt(opts[i])) <==> (exists i :: 0 <= i < |opts'| && BadOpt(opts'[i]))
    ensures SuffixTail(opts) == SuffixTail(opts')
  {
    if |opts'| > |opts| {
      var n := |opts'| - 1;
      assert Internal(opts'[n]);
      MoreInternalSame(opts, opts'[..n]);
      assert forall i :: 0 <= i < n ==> opts'[..n][i] == opts'[i];
    } else {
      assert opts == opts';
    }
  }

  /** BindQueue looks at the configuration's queue, key and handler only, as far as Agree can see. */
  lemma BindAgrees(m: R.Matcher, c: Conn, c': Conn, env: Env, env': Env, cfg: Config, cfg': Config)
    requires Agree(c, c') && NeverFails(env)
    requires cfg.queue == cfg'.queue && cfg.key == cfg'.key && cfg.handler == cfg'.handler
    ensures
      var r, r' := BindQueue(m, c, env, cfg), BindQueue(m, c', env', cfg');
      && Agree(r.c, r'.c) && (r'.ok ==> r.ok) && (NeverFails(env') ==> r.ok == r'.ok)
  {
  }

  lemma ConsumerAgrees(m: R.Matcher, c: Conn, c': Conn, env: Env, env': Env, base: Config, user: seq<Opt>,
                       opts: seq<Opt>, opts': seq<Opt>, pattern: Pattern, ephemeral: bool)
    requires Agree(c, c') && NeverFails(env) && base.bindArgs == map[]
    requires MoreInternal(user, opts) && MoreInternal(user, opts')
    ensures
      var r := RunConsumer(m, c, env, base, opts, pattern, ephemeral);
      var r' := RunConsumer(m, c', env', base, opts', pattern, ephemeral);
      && (r'.ok ==> r.ok && Agree(r.c, r'.c))
      && (NeverFails(env') ==> r.ok == r'.ok && Agree(r.c, r'.c))
  {
    FoldMeaning(base, opts);
    FoldMeaning(base, opts');
    MoreInternalSame(user, opts);
    MoreInternalSame(user, opts');
    if FoldOpts(base, opts).Some? {
      BindAgrees(m, c, c', env, env', FoldOpts(base, opts).value, FoldOpts(base, opts').value);
    }
  }

  lemma PublisherAgrees(c: Conn, c': Conn, env: Env, env': Env, publisher: nat, noConfirm: bool, exchange: string,
                        headers: seq<H.Header>, e: Endpoint)
    requires Agree(c, c') && NeverFails(env)
    ensures
      var r := RunPublisher(c, env, publisher, noConfirm, exchange, headers, e);
      var r' := RunPublisher(c', env', publisher, noConfirm, exchange, headers, e);
      && r.ok && (r'.ok ==> Agree(r.c, r'.c)) && (NeverFails(env') ==> r'.ok)
  {
  }

  /** A dry step r and a real step r' under env': whatever succeeds for real succeeds dry with the same
      effect, and with a broker that never fails the two succeed together. */
  ghost predicate Together(r: Ran, r': Ran, env': Env) {
    && (r'.ok ==> r.ok && Agree(r.c, r'.c))
    && (NeverFails(env') ==> r.ok == r'.ok)
  }

  lemma ExchangePublisherAgrees(c: Conn, c': Conn, env: Env, env': Env, x: ExchangeId, pattern: Pattern,
                                publisher: nat, noConfirm: bool)
    requires Agree(c, c') && NeverFails(env)
    ensures Together(RunExchangePublisher(c, env, x, pattern, publisher, noConfirm),
                     RunExchangePublisher(c', env', x, pattern, publisher, noConfirm), env')
  {
    PublisherAgrees(Declared(c, env, x), Declared(c', env', x), env, env', publisher, noConfirm, ExchangeName(x), [],
                    Endpoint(Publishes, pattern, ExchangeName(x), Some(KindOf(x)), "", "", false));
  }

  lemma StreamAgrees(m: R.Matcher, c: Conn, c': Conn, env: Env, env': Env, stream: string, key: string, h: R.Handler,
                     opts: seq<Opt>)
    requires Agree(c, c') && NeverFails(env)
    ensures Together(RunStream(m, c, env, stream, key, h, opts), RunStream(m, c', env', stream, key, h, opts), env')
  {
    ConsumerAgrees(m, c, c', env, env',
                   BaseConfig(key, TopicExchange(stream), EventQueueName(TopicExchange(stream), c.service), Topic, h),
                   opts, opts, opts, StreamPattern(stream), false);
  }

  lemma RequestsAgree(m: R.Matcher, c: Conn, c': Conn, env: Env, env': Env, key: string, h: R.Handler, opts: seq<Opt>)
    requires Agree(c, c') && NeverFails(env)
    ensures Together(RunRequests(m, c, env, key, h, opts), RunRequests(m, c', env', key, h, opts), env')
  {
    ConsumerAgrees(m, Declared(c, env, Responses(c.service)), Declared(c', env', Responses(c.service)), env, env',
                   BaseConfig(key, RequestExchange(c.service), RequestQueueName(c.service), Direct, h),
                   opts, opts, opts, ServiceRequest, false);
  }

  lemma TransientAgrees(m: R.Matcher, c: Conn, c': Conn, env: Env, env': Env, stream: string, key: string,
                        h: R.Handler, user: seq<Opt>, opts: seq<Opt>, opts': seq<Opt>)
    requires Agree(c, c') && NeverFails(env) && SameNames(env, env')
    requires MoreInternal(user, opts) && MoreInternal(user, opts')
    ensures Together(RunTransient(m, c, env, stream, key, h, opts),
                     RunTransient(m, c', env', stream, key, h, opts'), env')
  {
    assert env.rand(c.draws) == env'.rand(c'.draws);
    assert TransientConfig(c, env, stream, key, h) == TransientConfig(c', env', stream, key, h);
    ConsumerAgrees(m, Drawn(c), Drawn(c'), env, env', TransientConfig(c, env, stream, key, h),
                   user, opts + [ShortTtl], opts' + [ShortTtl], StreamPattern(stream), true);
  }

  lemma ResponsesAgree(m: R.Matcher, c: Conn, c': Conn, env: Env, env': Env, target: string, key: string,
                       h: R.Handler, user: seq<Opt>, opts: seq<Opt>, opts': seq<Opt>)
    requires Agree(c, c') && NeverFails(env) && MoreInternal(user, opts) && MoreInternal(user, opts')
    ensures Together(RunResponses(m, c, env, target, key, h, opts),
                     RunResponses(m, c', env', target, key, h, opts'), env')
  {
    ConsumerAgrees(m, c, c', env, env',
                   BaseConfig(key, ResponseExchange(target), ResponseQueueName(target, c.service), HeaderMatch, h),
                   user, opts + [ServiceHeader(c.service)], opts' + [ServiceHeader(c.service)], ServiceResponse, false);
  }

  /** s and s' are copies of one setup value. */
  lemma SetupAgrees(m: R.Matcher, original: Setup, s: Setup, s': Setup, c: Conn, c': Conn, env: Env, env': Env)
    requires Stale(original, s) && Stale(original, s') && Agree(c, c') && NeverFails(env) && SameNames(env, env')
    ensures Together(RunSetup(m, s, c, env), RunSetup(m, s', c', env'), env')
  {
    match original
    case StreamPublisher(stream, p, noConfirm) =>
      ExchangePublisherAgrees(c, c', env, env', Stream(stream), StreamPattern(stream), p, noConfirm);
    case QueuePublisher(queue, p, noConfirm) =>
      PublisherAgrees(c, c', env, env', p, noConfirm, "", [CcHeader(queue)],
                      Endpoint(Publishes, QueuePublish, "(default)", None, queue, "", false));
    case ServicePublisher(target, p, noConfirm) =>
      ExchangePublisherAgrees(c, c', env, env', Requests(target), ServiceRequest, p, noConfirm);
    case StreamConsumer(stream, key, h, opts) => StreamAgrees(m, c, c', env, env', stream, key, h, opts);
    case TransientStreamConsumer(stream, key, h, opts) =>
      TransientAgrees(m, c, c', env, env', stream, key, h, opts, s.opts, s'.opts);
    case ServiceRequestConsumer(key, h, opts) => RequestsAgree(m, c, c', env, env', key, h, opts);
    case ServiceResponseConsumer(target, key, h, opts) =>
      ResponsesAgree(m, c, c', env, env', target, key, h, opts, s.opts, s'.opts);
    case Other =>
  }

  ghost predicate AllStale(setups: seq<Setup>, setups': seq<Setup>) {
    |setups| == |setups'| && forall i :: 0 <= i < |setups| ==> Stale(setups[i], setups'[i])
  }

  /** Dry run equals real run. For every list of setups, if the real setup phase succeeds then so does
      the dry one, with the same endpoints in the same order; with a broker that never fails they
      succeed or fail together. Both runs may use setup values that earlier runs have modified. */
  lemma {:induction false} DryRunFaithful(m: R.Matcher, originals: seq<Setup>, setups: seq<Setup>, setups': seq<Setup>,
                                          c: Conn, c': Conn, env: Env, env': Env)
    requires AllStale(originals, setups) && AllStale(originals, setups')
    requires Agree(c, c') && NeverFails(env) && SameNames(env, env')
    ensures
      var dry, started := RunAll(m, setups, c, env), RunAll(m, setups', c', env');
      && (started.ok ==> dry.ok && dry.c.endpoints == started.c.endpoints)
      && (NeverFails(env') ==> dry.ok == started.ok)
      && Together(dry, started, env')
    decreases |setups|
  {
    if setups != [] {
      var n := |setups| - 1;
      DryRunFaithful(m, originals[..n], setups[..n], setups'[..n], c, c', env, env');
      var dry, started := RunAll(m, setups[..n], c, env), RunAll(m, setups'[..n], c', env');
      if started.ok {
        SetupAgrees(m, originals[n], setups[n], setups'[n], dry.c, started.c, env, env');
      }
    }
  }

  /** The setup values after a run in which the first n of them were executed. */
  function AfterRun(setups: seq<Setup>, service: string, n: nat): seq<Setup>
    requires n <= |setups|
  {
    seq(|setups|, i requires 0 <= i < |setups| => if i < n then Reused(setups[i], service) else setups[i])
  }

  /** What a run, complete or not, leaves in its setup values. */
  ghost predicate Used(setups: seq<Setup>, service: string, after: seq<Setup>) {
    exists n :: 0 <= n <= |setups| && after == AfterRun(setups, service, n)
  }

  /** However often setup values are used, they stay copies of the originals. */
  lemma UsedIsStale(originals: seq<Setup>, setups: seq<Setup>, service: string, after: seq<Setup>)
    requires AllStale(originals, setups) && Used(setups, service, after)
    ensures AllStale(originals, after)
  {
    var n :| 0 <= n <= |setups| && after == AfterRun(setups, service, n);
    forall i | 0 <= i < |originals|
      ensures Stale(originals[i], after[i])
    {
      ReuseIsStale(originals[i], setups[i], service);
    }
  }
}
