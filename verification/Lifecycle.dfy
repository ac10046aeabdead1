/** The connection object: Start, Close and CollectTopology, the invariant it keeps, and the order in which it
    talks to the broker. */
module Lifecycle {
  import opened Basics
  import opened Naming
  import opened Setups
  import opened SetupLaws
  import opened SetupTrace
  import H = Headers
  import R = Registry
  import DryRun

  // ---------------------------------------------------------------------------------------------
  // Laws of the trace
  // ---------------------------------------------------------------------------------------------

  /** Event n is the accepted close of the setup channel: before it come setup operations only, after it
      channel openings and Consumes only. */
  ghost predicate SetupEndsAt(t: seq<Event>, n: nat, setupChannel: nat) {
    && n < |t| && t[n] == Event(CloseChannel(setupChannel), true)
    && (forall j :: 0 <= j < n ==> SetupOp(t[j].op))
    && (forall j :: n < j < |t| ==> t[j].op.OpenChannel? || t[j].op.Consume?)
  }

  /** Event i is a Consume right after the opening of its channel, which nothing else opens. */
  ghost predicate OnOwnChannel(t: seq<Event>, i: nat) {
    && 0 < i < |t| && t[i].op.Consume? && t[i-1] == Event(OpenChannel(t[i].op.ch), true)
    && (forall j :: 0 <= j < |t| && j != i - 1 ==> t[j].op != OpenChannel(t[i].op.ch))
  }

  /** Declarations and bindings precede the close of the setup channel, which precedes every Consume; only
      registered queues are consumed, each at most once and on a channel of its own. */
  ghost predicate Orderly(t: seq<Event>, setupChannel: nat, registry: R.Table) {
    && (forall i :: 0 <= i < |t| && t[i].op.Consume? ==>
          && OnOwnChannel(t, i) && t[i].op.queue in registry
          && exists n :: 0 <= n < i && SetupEndsAt(t, n, setupChannel))
    && (forall i, j :: 0 <= i < j < |t| && t[i].op.Consume? && t[j].op.Consume? ==> t[i].op.queue != t[j].op.queue)
  }

  ghost predicate ConsumesQueue(e: Event, queue: string) { e.ok && e.op.Consume? && e.op.queue == queue }
  ghost predicate ConsumesOn(e: Event, ch: nat) { e.op.Consume? && e.op.ch == ch }

  /** The first two operations open the response channel and then the setup channel. */
  ghost predicate OpensTwo(t: seq<Event>, setupChannel: nat) {
    && |t| >= 2 && t[0].op.OpenChannel? && t[0].op.ch != setupChannel && t[1].op == OpenChannel(setupChannel)
  }

  /** Every registered queue is consumed; `channels` are the channels consumed on, without repetition, neither the
      response nor the setup channel among them. */
  ghost predicate AllConsumed(t: seq<Event>, setupChannel: nat, registry: R.Table, channels: seq<nat>) {
    && OpensTwo(t, setupChannel) && t[0].op.ch !in channels
    && (exists n :: 0 <= n && SetupEndsAt(t, n, setupChannel))
    && (forall q :: q in registry ==> exists i :: 0 <= i < |t| && ConsumesQueue(t[i], q))
    && (forall ch :: ch in channels <==> exists i :: 0 <= i < |t| && ConsumesOn(t[i], ch))
    && (forall i, j :: 0 <= i < j < |channels| ==> channels[i] != channels[j])
    && setupChannel !in channels
  }

  /** Exactly one event of the trace closes this channel. */
  ghost predicate ClosedOnce(t: seq<Event>, ch: nat) {
    exists i :: 0 <= i < |t| && t[i].op == CloseChannel(ch)
                && forall j :: 0 <= j < |t| && j != i ==> t[j].op != CloseChannel(ch)
  }

  /** Each of the channels was closed exactly once, no other but the setup channel was, and the connection was
      closed exactly once, at the very end. */
  ghost predicate AllClosed(t: seq<Event>, setupChannel: nat, channels: seq<nat>) {
    && (forall ch :: ch in channels ==> ClosedOnce(t, ch))
    && (forall i :: 0 <= i < |t| && t[i].op.CloseChannel? ==> t[i].op.ch in channels || t[i].op.ch == setupChannel)
    && t != [] && (forall i :: 0 <= i < |t| ==> (t[i].op.CloseConnection? <==> i == |t| - 1))
  }

  // ---------------------------------------------------------------------------------------------
  // The traces of startConsumers and Close
  // ---------------------------------------------------------------------------------------------

  /** Operation k of startConsumers when it visits the queues in `order`. */
  function ConsumeOp(order: seq<string>, first: nat, k: nat): Op
    requires k < 2 * |order|
  {
    if k % 2 == 0 then OpenChannel(first + k / 2) else Consume(first + k / 2, order[k / 2])
  }

  /** The first n operations; all succeed, the last one if `ok`. */
  function ConsumeEvents(order: seq<string>, first: nat, n: nat, ok: bool): seq<Event>
    requires n <= 2 * |order|
  {
    seq(n, k requires 0 <= k < n => Event(ConsumeOp(order, first, k), ok || k < n - 1))
  }

  lemma ConsumeEventsNext(before: seq<Event>, order: seq<string>, queue: string, first: nat, n: nat, ok: bool)
    requires 1 <= n <= 2
    ensures
      before + ConsumeEvents(order, first, 2 * |order|, true) + ConsumeEvents([queue], first + |order|, n, ok)
      == before + ConsumeEvents(order + [queue], first, 2 * |order| + n, ok)
  {
    var a, b := ConsumeEvents(order, first, 2 * |order|, true), ConsumeEvents([queue], first + |order|, n, ok);
    var all := ConsumeEvents(order + [queue], first, 2 * |order| + n, ok);
    forall k | 0 <= k < |all|
      ensures (a + b)[k] == all[k]
    {
      if k < |a| {
        assert (order + [queue])[k / 2] == order[k / 2];
      }
    }
    assert before + a + b == before + (a + b);
  }

  /** first, first + 1, ..., n of them */
  function Numbers(first: nat, n: nat): seq<nat> { seq(n, i requires 0 <= i => first + i) }

  /** The operations of Close; `n` is the length of the trace before. */
  function CloseEvents(channels: seq<nat>, fails: nat -> bool, n: nat): seq<Event> {
    seq(|channels| + 1, k requires 0 <= k <= |channels| =>
      Event(if k < |channels| then CloseChannel(channels[k]) else CloseConnection, !fails(n + k)))
  }

  function Failures(events: seq<Event>): nat {
    if events == [] then 0
    else Failures(events[..|events|-1]) + if events[|events|-1].ok then 0 else 1
  }

  /** The refused operations of a trace from position n on. */
  ghost function Refusals(t: seq<Event>, n: nat): set<nat> { set i: nat | n <= i < |t| && !t[i].ok }

  lemma RefusalsNext(t: seq<Event>, n: nat, e: Event)
    requires n <= |t|
    ensures |Refusals(t + [e], n)| == |Refusals(t, n)| + if e.ok then 0 else 1
  {
    var before, after := Refusals(t, n), Refusals(t + [e], n);
    forall i: nat
      ensures i in after <==> i in before || (!e.ok && i == |t|)
    {
    }
    if e.ok {
      assert after == before;
    } else {
      assert after == before + {|t|};
    }
  }

  lemma {:induction false} FailuresAreRefusals(t: seq<Event>, events: seq<Event>)
    ensures Failures(events) == |Refusals(t + events, |t|)|
  {
    if events == [] {
      assert Refusals(t + events, |t|) == {};
    } else {
      var n := |events| - 1;
      FailuresAreRefusals(t, events[..n]);
      RefusalsNext(t + events[..n], |t|, events[n]);
      assert t + events == t + events[..n] + [events[n]];
    }
  }

  // ---------------------------------------------------------------------------------------------
  // The connection between steps
  // ---------------------------------------------------------------------------------------------

  /** The connection once Start has opened the response and the setup channel. */
  function Opened(c: Conn, env: Env): Conn {
    var c2 := Open(Open(c, env).c, env).c;
    c2.(setupChannel := c.channels + 1)
  }

  /** What Start does when a channel cannot be opened: the response channel is closed again if it was opened. */
  function OpenFailure(env: Env, n: nat, ch: nat): seq<Event> {
    if env.fails(n) then [Event(OpenChannel(ch), false)]
    else [Event(OpenChannel(ch), true), Event(OpenChannel(ch + 1), false), Event(CloseChannel(ch), !env.fails(n + 2))]
  }

  /** t' extends t by operations other than Consume and the close of the connection. */
  ghost predicate Appended(t: seq<Event>, t': seq<Event>) {
    && t <= t'
    && (forall i :: |t| <= i < |t'| ==> !t'[i].op.Consume? && !t'[i].op.CloseConnection?)
  }

  ghost predicate AllLegit(setups: seq<Setup>) { forall s :: s in setups ==> Legit(s) }

  /** What a connection keeps from its creation on. */
  ghost predicate Sane(m: R.Matcher, c: Conn) { R.Sound(m) && Inv(m, AnySuffix, c) && Tidy(c) }

  /** The trace when the setups ended in c and n operations of startConsumers followed. */
  function StartTrace(c: Conn, order: seq<string>, n: nat, ok: bool): seq<Event>
    requires n <= 2 * |order|
  {
    c.trace + [Event(CloseChannel(c.setupChannel), true)] + ConsumeEvents(order, c.channels, n, ok)
  }

  /** c' is the connection whose setups ended in c, after n operations of startConsumers. */
  ghost predicate IsStart(c: Conn, c': Conn, order: seq<string>, n: nat, ok: bool) {
    && n <= 2 * |order| && c'.trace == StartTrace(c, order, n, ok) && c'.setupChannel == c.setupChannel
    && c'.registry == c.registry && c'.endpoints == c.endpoints && IsPartialOrder(c.registry.Keys, order)
    && (ok ==> n == 2 * |order| && IsOrder(c.registry.Keys, order))
  }

  // ---------------------------------------------------------------------------------------------
  // Why the laws hold
  // ---------------------------------------------------------------------------------------------

  /** An operation that may be added to any trace. */
  ghost predicate Plain(op: Op) {
    !op.Bind? && (op.DeclareExchange? ==> FitsKind(op.name, op.kind))
  }

  lemma PlainKeeps(m: R.Matcher, c: Conn, op: Op, ok: bool, c': Conn)
    requires Sane(m, c) && Plain(op) && PlainStep(c, op, ok, c') && c'.registry == c.registry
    ensures Sane(m, c')
  {
    PlainTidy(c, op, ok, c');
    HarmlessKeeps(m, AnySuffix, c, c');
  }

  /** startConsumers keeps the invariant, wherever it stops. */
  lemma {:induction false} ConsumersKeep(m: R.Matcher, c: Conn, order: seq<string>, n: nat, ok: bool, c': Conn)
    requires Sane(m, c) && n <= 2 * |order|
    requires c' == c.(trace := c.trace + ConsumeEvents(order, c.channels, n, ok), channels := c.channels + (n + 1) / 2)
    ensures Sane(m, c')
  {
    if n == 0 {
      assert c' == c;
    } else {
      var events := ConsumeEvents(order, c.channels, n, ok);
      var mid := c.(trace := c.trace + ConsumeEvents(order, c.channels, n - 1, true), channels := c.channels + n / 2);
      ConsumersKeep(m, c, order, n - 1, true, mid);
      assert events == ConsumeEvents(order, c.channels, n - 1, true) + [events[n-1]];
      assert c'.trace == mid.trace + [events[n-1]];
      PlainKeeps(m, mid, events[n-1].op, events[n-1].ok, c');
    }
  }

  lemma SetupChannelIsFree(m: R.Matcher, c: Conn, ch: nat)
    requires Sane(m, c)
    ensures Sane(m, c.(setupChannel := ch))
  {
    HarmlessKeeps(m, AnySuffix, c, c.(setupChannel := ch));
  }

  lemma {:induction false} RunAllStops(m: R.Matcher, setups: seq<Setup>, c: Conn, env: Env, i: nat)
    requires i <= |setups| && !RunAll(m, setups[..i], c, env).ok
    ensures RunAll(m, setups, c, env) == RunAll(m, setups[..i], c, env)
  {
    if i == |setups| {
      assert setups[..i] == setups;
    } else {
      assert setups[..|setups|-1][..i] == setups[..i];
      RunAllStops(m, setups[..|setups|-1], c, env, i);
    }
  }

  /** c is the end of a setup phase that started with the two channel openings. */
  ghost predicate PhaseEnd(c: Conn) {
    && (forall i :: 0 <= i < |c.trace| ==> SetupOp(c.trace[i].op))
    && OpensTwo(c.trace, c.setupChannel) && c.trace[0].op.ch < c.channels && c.setupChannel < c.channels
  }

  lemma FirstPhaseEnds(service: string, env: Env, c: Conn)
    requires Later(Opened(Fresh(service), env), c)
    ensures PhaseEnd(c)
  {
    var start := Opened(Fresh(service), env);
    forall i | 0 <= i < |c.trace|
      ensures SetupOp(c.trace[i].op)
    {
      if i < |start.trace| {
        assert c.trace[i] == start.trace[i] && start.trace[i].op.OpenChannel?;
      }
    }
  }

  lemma SetupEnds(c: Conn, order: seq<string>, n: nat, ok: bool)
    requires PhaseEnd(c) && n <= 2 * |order|
    ensures SetupEndsAt(StartTrace(c, order, n, ok), |c.trace|, c.setupChannel)
  {
  }

  /** A Consume of the trace is one of startConsumers, right after the opening of its channel. */
  lemma ConsumeIsPaired(c: Conn, order: seq<string>, n: nat, ok: bool, i: nat)
    requires PhaseEnd(c) && n <= 2 * |order| && i < |StartTrace(c, order, n, ok)|
    requires StartTrace(c, order, n, ok)[i].op.Consume?
    ensures
      var t, base := StartTrace(c, order, n, ok), |c.trace| + 1;
      && base < i && (i - base) % 2 == 1 && t[i].op.queue == order[(i - base) / 2]
      && t[i-1] == Event(OpenChannel(t[i].op.ch), true)
  {
    var t, base := StartTrace(c, order, n, ok), |c.trace| + 1;
    assert i >= base && (i - base) % 2 == 1;
    assert t[i-1] == ConsumeEvents(order, c.channels, n, ok)[i - 1 - base];
  }

  /** c is where the setup phase ended, c' where startConsumers did. */
  lemma StartIsOrderly(c: Conn, c': Conn, order: seq<string>, n: nat, ok: bool)
    requires PhaseEnd(c) && n <= 2 * |order| && c'.trace == StartTrace(c, order, n, ok) && ChannelsOk(c')
    requires IsPartialOrder(c'.registry.Keys, order)
    ensures Orderly(c'.trace, c.setupChannel, c'.registry)
  {
    var t, base := c'.trace, |c.trace| + 1;
    SetupEnds(c, order, n, ok);
    forall i: nat | i < |t| && t[i].op.Consume?
      ensures OnOwnChannel(t, i) && t[i].op.queue in c'.registry && base <= i
    {
      ConsumeIsPaired(c, order, n, ok, i);
    }
    forall i: nat, j: nat | i < j < |t| && t[i].op.Consume? && t[j].op.Consume?
      ensures t[i].op.queue != t[j].op.queue
    {
      ConsumeIsPaired(c, order, n, ok, i);
      ConsumeIsPaired(c, order, n, ok, j);
      assert (i - base) / 2 < (j - base) / 2;
    }
  }

  /** Queue k of the order is consumed on the k-th new channel. */
  lemma ConsumedAt(c: Conn, order: seq<string>, k: nat)
    requires k < |order|
    ensures
      var t, i := StartTrace(c, order, 2 * |order|, true), |c.trace| + 2 * k + 2;
      i < |t| && t[i] == Event(Consume(c.channels + k, order[k]), true)
  {
    assert (2 * k + 1) / 2 == k && (2 * k + 1) % 2 == 1;
  }

  /** The channels consumed on are the new ones. */
  lemma ConsumedChannels(c: Conn, order: seq<string>, ch: nat)
    requires PhaseEnd(c)
    ensures
      var t := StartTrace(c, order, 2 * |order|, true);
      ch in Numbers(c.channels, |order|) <==> exists i :: 0 <= i < |t| && ConsumesOn(t[i], ch)
  {
    var t, channels := StartTrace(c, order, 2 * |order|, true), Numbers(c.channels, |order|);
    if ch in channels {
      var k :| 0 <= k < |channels| && channels[k] == ch;
      ConsumedAt(c, order, k);
      assert ConsumesOn(t[|c.trace| + 2 * k + 2], ch);
    }
    if i :| 0 <= i < |t| && ConsumesOn(t[i], ch) {
      assert i > |c.trace|;
      assert channels[(i - |c.trace| - 1) / 2] == ch;
    }
  }

  lemma StartConsumesAll(c: Conn, t: seq<Event>, registry: R.Table, order: seq<string>)
    requires PhaseEnd(c) && t == StartTrace(c, order, 2 * |order|, true) && IsOrder(registry.Keys, order)
    ensures AllConsumed(t, c.setupChannel, registry, Numbers(c.channels, |order|))
  {
    SetupEnds(c, order, 2 * |order|, true);
    forall q | q in registry
      ensures exists i :: 0 <= i < |t| && ConsumesQueue(t[i], q)
    {
      assert q in order;
      var k :| 0 <= k < |order| && order[k] == q;
      ConsumedAt(c, order, k);
      assert ConsumesQueue(t[|c.trace| + 2 * k + 2], q);
    }
    forall ch: nat
      ensures ch in Numbers(c.channels, |order|) <==> exists i :: 0 <= i < |t| && ConsumesOn(t[i], ch)
    {
      ConsumedChannels(c, order, ch);
    }
  }

  lemma FreshIsComplete(service: string)
    ensures EndpointsComplete(Fresh(service))
  {
  }

  lemma NothingConsumed(t: seq<Event>, setupChannel: nat, registry: R.Table)
    requires Appended([], t)
    ensures Orderly(t, setupChannel, registry)
  {
  }

  lemma FirstStart(service: string, env: Env, phase: Conn, c: Conn, order: seq<string>, n: nat, ok: bool)
    requires Later(Opened(Fresh(service), env), phase) && IsStart(phase, c, order, n, ok)
    requires ChannelsOk(c) && EndpointsOk(c) && EndpointsComplete(phase)
    ensures Orderly(c.trace, c.setupChannel, c.registry)
    ensures ok ==> AllConsumed(c.trace, c.setupChannel, c.registry, Numbers(phase.channels, |order|))
    ensures EndpointBijection(c.registry, c.endpoints)
  {
    FirstPhaseEnds(service, env, phase);
    StartIsOrderly(phase, c, order, n, ok);
    if ok {
      StartConsumesAll(phase, c.trace, c.registry, order);
    }
    BijectionHolds(c);
  }

  /** The first n operations of Close keep the invariant. */
  lemma {:induction false} ClosesKeep(m: R.Matcher, c: Conn, channels: seq<nat>, fails: nat -> bool, n: nat, c': Conn)
    requires Sane(m, c) && n <= |channels| + 1
    requires c' == c.(trace := c.trace + CloseEvents(channels, fails, |c.trace|)[..n])
    ensures Sane(m, c')
  {
    var events := CloseEvents(channels, fails, |c.trace|);
    if n == 0 {
      assert c' == c;
    } else {
      var mid := c.(trace := c.trace + events[..n-1]);
      ClosesKeep(m, c, channels, fails, n - 1, mid);
      assert events[..n] == events[..n-1] + [events[n-1]];
      assert c'.trace == mid.trace + [events[n-1]];
      PlainKeeps(m, mid, events[n-1].op, events[n-1].ok, c');
    }
  }

  lemma CloseClosesOnce(t: seq<Event>, fails: nat -> bool, setupChannel: nat, channels: seq<nat>)
    requires exists n :: 0 <= n && SetupEndsAt(t, n, setupChannel)
    requires setupChannel !in channels && forall i, j :: 0 <= i < j < |channels| ==> channels[i] != channels[j]
    ensures AllClosed(t + CloseEvents(channels, fails, |t|), setupChannel, channels)
  {
    var n :| 0 <= n && SetupEndsAt(t, n, setupChannel);
    var closes := CloseEvents(channels, fails, |t|);
    var t' := t + closes;
    assert forall i :: 0 <= i < |t| && t[i].op.CloseChannel? ==> t[i].op.ch == setupChannel;
    forall ch | ch in channels
      ensures ClosedOnce(t', ch)
    {
      var k :| 0 <= k < |channels| && channels[k] == ch;
      assert t'[|t| + k].op == CloseChannel(ch);
      forall j | 0 <= j < |t'| && j != |t| + k
        ensures t'[j].op != CloseChannel(ch)
      {
        if j >= |t| {
          assert t'[j] == closes[j - |t|];
        }
      }
    }
  }

  // ---------------------------------------------------------------------------------------------
  // The object
  // ---------------------------------------------------------------------------------------------

  /** The configuration binds one of the service's own queues to the exchange it is meant for. */
  ghost predicate Fits(service: string, cfg: Config) {
    && FitsKind(cfg.exchange, cfg.kind)
    && OwnBind(service, AnySuffix, cfg.queue, cfg.exchange, cfg.bindArgs)
  }

  class Connection {
    const service: string
    const m: R.Matcher
    const env: Env
    var started: bool
    var setupChannel: nat
    var registry: R.Table
    var endpoints: seq<Endpoint>
    var wired: map<nat, Wiring>
    var channels: nat
    var draws: nat
    var trace: seq<Event>
    var consumerChannels: seq<nat>

    /** The part of the object that setup functions work on. */
    ghost function State(): Conn
      reads this
    {
      Conn(service, setupChannel, registry, endpoints, wired, channels, draws, trace)
    }

    ghost predicate Valid()
      reads this
    {
      Sane(m, State())
    }

    ghost predicate New()
      reads this
    {
      !started && State() == Fresh(service) && consumerChannels == []
    }

    /** A started connection whose trace is in order and whose endpoints match its registry one to one. */
    ghost predicate Running()
      reads this
    {
      && started && Valid()
      && Orderly(trace, setupChannel, registry) && AllConsumed(trace, setupChannel, registry, consumerChannels)
      && EndpointBijection(registry, endpoints)
    }

    /** NewFromURL */
    constructor (service: string, m: R.Matcher, env: Env)
      requires R.Sound(m)
      ensures this.service == service && this.m == m && this.env == env
      ensures Valid() && New()
    {
      this.service, this.m, this.env := service, m, env;
      started, setupChannel, channels, draws := false, 0, 0, 0;
      registry, endpoints, wired, trace, consumerChannels := map[], [], map[], [], [];
    }

    /** One operation on the broker. */
    method Perform(op: Op) returns (ok: bool)
      modifies this`trace
      ensures State() == Do(old(State()), env, op).c && ok == Do(old(State()), env, op).ok
      ensures old(Valid()) && Plain(op) && !op.OpenChannel? ==> Valid()
    {
      ok := !env.fails(|trace|);
      trace := trace + [Event(op, ok)];
      if old(Valid()) && Plain(op) && !op.OpenChannel? {
        PlainKeeps(m, old(State()), op, ok, State());
      }
    }

    /** connection.channel() */
    method OpenNext() returns (ok: bool)
      modifies this`trace, this`channels
      ensures State() == Open(old(State()), env).c && ok == Open(old(State()), env).ok
      ensures old(Valid()) ==> Valid()
    {
      ok := Perform(OpenChannel(channels));
      channels := channels + 1;
      if old(Valid()) {
        PlainKeeps(m, old(State()), OpenChannel(old(channels)), ok, State());
      }
    }

    /** messageHandlerBindQueueToExchange. On success the handler is registered and the broker has accepted the
        binding; on failure the pattern overlaps and nothing happened, or the last operation was refused. */
    method BindQueueToExchange(cfg: Config) returns (ok: bool)
      modifies this`registry, this`trace
      ensures State() == BindQueue(m, old(State()), env, cfg).c && ok == BindQueue(m, old(State()), env, cfg).ok
      ensures ok ==> cfg.key in R.HandlersOf(registry, cfg.queue) && Bound(trace, cfg.queue, cfg.key, cfg.exchange)
      ensures !ok ==>
                || (R.Clashes(m, old(registry), cfg.queue, cfg.key) && trace == old(trace) && registry == old(registry))
                || (old(trace) < trace && !trace[|trace|-1].ok)
      ensures old(Valid()) && Fits(service, cfg) ==> Valid()
    {
      BindQueueLater(m, State(), env, cfg);
      if Valid() && Fits(service, cfg) {
        BindQueueInv(m, AnySuffix, State(), env, cfg);
      }
      ok, registry := R.Register(m, registry, cfg.queue, cfg.key, cfg.handler);
      if !ok { return; }
      ok := Perform(DeclareExchange(setupChannel, cfg.exchange, cfg.kind));
      if !ok { return; }
      ok := Perform(DeclareQueue(setupChannel, cfg.queue, cfg.queueArgs));
      if !ok { return; }
      ok := Perform(Bind(setupChannel, cfg.queue, cfg.key, cfg.exchange, cfg.bindArgs));
    }

    method Consumer(key: string, exchange: string, queue: string, kind: Kind, h: R.Handler, opts: seq<Opt>,
                    pattern: Pattern, ephemeral: bool) returns (ok: bool)
      modifies this`registry, this`trace, this`endpoints
      ensures
        var r := RunConsumer(m, old(State()), env, BaseConfig(key, exchange, queue, kind, h), opts, pattern, ephemeral);
        State() == r.c && ok == r.ok
    {
      var cfg := NewConsumerConfig(key, exchange, queue, kind, h, opts);
      if cfg.None? {
        return false;
      }
      ok := BindQueueToExchange(cfg.value);
      if ok {
        endpoints := endpoints
                     + [Endpoint(Consumes, pattern, cfg.value.exchange, Some(kind), cfg.value.queue, key, ephemeral)];
      }
    }

    method WireUp(publisher: nat, noConfirm: bool, exchange: string, headers: seq<H.Header>, e: Endpoint)
      returns (ok: bool)
      modifies this`trace, this`channels, this`endpoints, this`wired
      ensures
        var r := RunPublisher(old(State()), env, publisher, noConfirm, exchange, headers, e);
        State() == r.c && ok == r.ok
    {
      var ch := channels;
      ok := OpenNext();
      if !ok { return; }
      endpoints := endpoints + [e];
      wired := wired[publisher := WiringFor(exchange, service, headers)];
      if !noConfirm {
        trace := trace + [Event(NotifyPublish(ch), true)];
        ok := Perform(ConfirmMode(ch));
      }
    }

    method DeclareAndWire(x: ExchangeId, pattern: Pattern, publisher: nat, noConfirm: bool) returns (ok: bool)
      modifies this`trace, this`channels, this`endpoints, this`wired
      ensures
        var r := RunExchangePublisher(old(State()), env, x, pattern, publisher, noConfirm);
        State() == r.c && ok == r.ok
    {
      ok := Perform(DeclareExchange(setupChannel, ExchangeName(x), KindOf(x)));
      if ok {
        ok := WireUp(publisher, noConfirm, ExchangeName(x), [],
                     Endpoint(Publishes, pattern, ExchangeName(x), Some(KindOf(x)), "", "", false));
      }
    }

    method ConsumeRequests(key: string, h: R.Handler, opts: seq<Opt>) returns (ok: bool)
      modifies this`registry, this`trace, this`endpoints
      ensures
        var r := RunRequests(m, old(State()), env, key, h, opts);
        State() == r.c && ok == r.ok
    {
      ok := Perform(DeclareExchange(setupChannel, ResponseExchange(service), HeaderMatch));
      if ok {
        ok := Consumer(key, RequestExchange(service), RequestQueueName(service), Direct, h, opts,
                       ServiceRequest, false);
      }
    }

    method ConsumeTransient(stream: string, key: string, h: R.Handler, opts: seq<Opt>) returns (ok: bool)
      modifies this`registry, this`trace, this`endpoints, this`draws
      ensures
        var r := RunTransient(m, old(State()), env, stream, key, h, opts);
        State() == r.c && ok == r.ok
    {
      var queue := RandomQueueName(TopicExchange(stream), service, env.rand(draws));
      assert BaseConfig(key, TopicExchange(stream), queue, Topic, h) == TransientConfig(State(), env, stream, key, h);
      draws := draws + 1;
      ok := Consumer(key, TopicExchange(stream), queue, Topic, h, opts + [ShortTtl], StreamPattern(stream), true);
    }

    /** Apply one setup function, which keeps the invariant whatever the broker refuses and, if it succeeds,
        keeps an endpoint for every registered pattern. `after` is the setup value with the options its closure
        now captures. */
    method Apply(s: Setup) returns (ok: bool, after: Setup)
      modifies this`registry, this`trace, this`endpoints, this`channels, this`wired, this`draws
      ensures old(Valid()) && Legit(s) ==> Valid()
      ensures old(Valid()) && Legit(s) && ok && EndpointsComplete(old(State())) ==> EndpointsComplete(State())
      ensures Later(old(State()), State())
      ensures State() == RunSetup(m, s, old(State()), env).c && ok == RunSetup(m, s, old(State()), env).ok
      ensures after == Reused(s, service)
      ensures
        match s
        case ServiceResponseConsumer(t, k, h, opts) =>
          after == ServiceResponseConsumer(t, k, h, opts + [ServiceHeader(service)])
        case TransientStreamConsumer(x, k, h, opts) => after == TransientStreamConsumer(x, k, h, opts + [ShortTtl])
        case _ => after == s
    {
      SetupLater(m, s, State(), env);
      if Valid() && Legit(s) {
        SetupKeeps(m, AnySuffix, s, State(), env);
      }
      after := s;
      match s
      case StreamPublisher(stream, p, noConfirm) =>
        ok := DeclareAndWire(Stream(stream), StreamPattern(stream), p, noConfirm);
      case QueuePublisher(queue, p, noConfirm) =>
        ok := WireUp(p, noConfirm, "", [CcHeader(queue)],
                     Endpoint(Publishes, QueuePublish, "(default)", None, queue, "", false));
      case ServicePublisher(target, p, noConfirm) =>
        ok := DeclareAndWire(Requests(target), ServiceRequest, p, noConfirm);
      case StreamConsumer(stream, key, h, opts) =>
        ok := Consumer(key, TopicExchange(stream), EventQueueName(TopicExchange(stream), service), Topic, h, opts,
                       StreamPattern(stream), false);
      case TransientStreamConsumer(stream, key, h, opts) =>
        after := TransientStreamConsumer(stream, key, h, opts + [ShortTtl]);
        ok := ConsumeTransient(stream, key, h, opts);
      case ServiceRequestConsumer(key, h, opts) =>
        ok := ConsumeRequests(key, h, opts);
      case ServiceResponseConsumer(target, key, h, opts) =>
        after := ServiceResponseConsumer(target, key, h, opts + [ServiceHeader(service)]);
        ok := Consumer(key, ResponseExchange(target), ResponseQueueName(target, service), HeaderMatch, h,
                       opts + [ServiceHeader(service)], ServiceResponse, false);
      case Other => ok := true;
    }

    /** The setup loop: in order, up to the first failure. */
    method ApplyEach(setups: seq<Setup>) returns (ok: bool, after: seq<Setup>)
      modifies this`registry, this`trace, this`endpoints, this`channels, this`wired, this`draws
      ensures State() == RunAll(m, setups, old(State()), env).c && ok == RunAll(m, setups, old(State()), env).ok
      ensures DryRun.Used(setups, service, after)
    {
      after := setups;
      for i := 0 to |setups|
        invariant RunAll(m, setups[..i], old(State()), env) == Ran(State(), true)
        invariant after == DryRun.AfterRun(setups, service, i)
      {
        assert setups[..i+1][..i] == setups[..i];
        var s;
        ok, s := Apply(setups[i]);
        after := after[i := s];
        assert after == DryRun.AfterRun(setups, service, i + 1);
        if !ok {
          RunAllStops(m, setups, old(State()), env, i + 1);
          return;
        }
      }
      assert setups[..|setups|] == setups;
      ok := true;
    }

    /** The setup loop of Start and CollectTopology: whatever the broker refuses the invariant is kept, and if all
        setups succeed every registered pattern has its endpoint. `after` are the setup values as their
        closures leave them. */
    method ApplyAll(setups: seq<Setup>) returns (ok: bool, after: seq<Setup>)
      requires Valid() && AllLegit(setups)
      modifies this`registry, this`trace, this`endpoints, this`channels, this`wired, this`draws
      ensures Valid() && Later(old(State()), State())
      ensures ok && EndpointsComplete(old(State())) ==> EndpointsComplete(State())
      ensures State() == RunAll(m, setups, old(State()), env).c && ok == RunAll(m, setups, old(State()), env).ok
      ensures DryRun.Used(setups, service, after)
    {
      AllSetupsKeep(m, AnySuffix, setups, State(), env);
      AllSetupsLater(m, setups, State(), env);
      ok, after := ApplyEach(setups);
    }

    /** The response and the setup channel. */
    method OpenChannels() returns (ok: bool)
      requires Valid()
      modifies this`setupChannel, this`trace, this`channels
      ensures Valid() && Appended(old(trace), trace)
      ensures ok <==> !env.fails(|old(trace)|) && !env.fails(|old(trace)| + 1)
      ensures ok ==> State() == Opened(old(State()), env)
      ensures !ok ==> trace == old(trace) + OpenFailure(env, |old(trace)|, old(channels))
    {
      var responseChannel := channels;
      ok := OpenNext();
      if !ok { return; }
      var setup := channels;
      ok := OpenNext();
      if !ok {
        var _ := Perform(CloseChannel(responseChannel));
        return;
      }
      SetupChannelIsFree(m, State(), setup);
      setupChannel := setup;
    }

    /** The part of Start that declares: both channels, the setups, the close of the setup channel. It succeeds
        exactly when none of the three operations is refused and the setups succeed; nothing is consumed. */
    method Prepare(setups: seq<Setup>) returns (ok: bool, after: seq<Setup>)
      requires Valid() && AllLegit(setups)
      modifies this`setupChannel, this`registry, this`trace, this`endpoints, this`channels, this`wired, this`draws
      ensures Valid() && Appended(old(trace), trace) && DryRun.Used(setups, service, after)
      ensures
        var n, phase := |old(trace)|, RunAll(m, setups, Opened(old(State()), env), env);
        && (ok <==> !env.fails(n) && !env.fails(n + 1) && phase.ok && !env.fails(|phase.c.trace|))
        && (ok ==>
              && Later(Opened(old(State()), env), phase.c)
              && State() == phase.c.(trace := phase.c.trace + [Event(CloseChannel(setupChannel), true)])
              && (EndpointsComplete(old(State())) ==> EndpointsComplete(phase.c)))
        && (env.fails(n) || env.fails(n + 1) ==> trace == old(trace) + OpenFailure(env, n, old(channels)))
        && (!ok && !env.fails(n) && !env.fails(n + 1) && !phase.ok ==> State() == phase.c)
        && (!ok && !env.fails(n) && !env.fails(n + 1) && phase.ok ==>
              State() == phase.c.(trace := phase.c.trace + [Event(CloseChannel(setupChannel), false)]))
    {
      after := setups;
      assert after == DryRun.AfterRun(setups, service, 0);
      ok := OpenChannels();
      if !ok { return; }
      ok, after := ApplyAll(setups);
      if !ok { return; }
      ok := Perform(CloseChannel(setupChannel));
    }

    /** One consumer: its own channel, then Consume on it; `n` is how many of the two were attempted. */
    method StartConsumer(queue: string) returns (ok: bool, ghost n: nat)
      modifies this`trace, this`channels, this`consumerChannels
      ensures 1 <= n <= 2 && (ok ==> n == 2) && channels == old(channels) + 1
      ensures trace == old(trace) + ConsumeEvents([queue], old(channels), n, ok)
      ensures ok ==> consumerChannels == old(consumerChannels) + [old(channels)]
      ensures DryRun.NeverFails(env) ==> ok
    {
      var ch := channels;
      ok := OpenNext();
      if !ok { return ok, 1; }
      consumerChannels := consumerChannels + [ch];
      ok := Perform(Consume(ch, queue));
      n := 2;
    }

    /** startConsumers: the queues in whatever order the range over the registry produces them, up to the first
        refusal. */
    method StartConsumers() returns (ok: bool, ghost order: seq<string>, ghost n: nat)
      requires Valid()
      modifies this`trace, this`channels, this`consumerChannels
      ensures Valid() && n <= 2 * |order| && IsPartialOrder(registry.Keys, order)
      ensures trace == old(trace) + ConsumeEvents(order, old(channels), n, ok)
      ensures ok ==> IsOrder(registry.Keys, order) && n == 2 * |order|
                     && consumerChannels == old(consumerChannels) + Numbers(old(channels), |order|)
      ensures DryRun.NeverFails(env) ==> ok
    {
      ok, order, n := StartEach();
      ConsumersKeep(m, old(State()), order, n, ok, State());
    }

    method StartEach() returns (ok: bool, ghost order: seq<string>, ghost n: nat)
      modifies this`trace, this`channels, this`consumerChannels
      ensures n <= 2 * |order| && channels == old(channels) + (n + 1) / 2
      ensures IsPartialOrder(registry.Keys, order)
      ensures trace == old(trace) + ConsumeEvents(order, old(channels), n, ok)
      ensures ok ==> IsOrder(registry.Keys, order) && n == 2 * |order|
                     && consumerChannels == old(consumerChannels) + Numbers(old(channels), |order|)
      ensures DryRun.NeverFails(env) ==> ok
    {
      var rest := registry.Keys;
      order := [];
      while rest != {}
        invariant rest <= registry.Keys && IsOrder(registry.Keys - rest, order)
        invariant channels == old(channels) + |order|
        invariant trace == old(trace) + ConsumeEvents(order, old(channels), 2 * |order|, true)
        invariant consumerChannels == old(consumerChannels) + Numbers(old(channels), |order|)
      {
        var queue :| queue in rest;
        rest := rest - {queue};
        ok, n := StartConsumer(queue);
        ConsumeEventsNext(old(trace), order, queue, old(channels), n, ok);
        order, n := order + [queue], 2 * |order| + n;
        if !ok { return; }
      }
      ok, n := true, 2 * |order|;
    }

    /** Start without its guard; `prepared` says whether it got to the consumers. */
    method Launch(setups: seq<Setup>)
      returns (ok: bool, after: seq<Setup>, ghost prepared: bool, ghost order: seq<string>, ghost n: nat)
      requires Valid() && AllLegit(setups)
      modifies this`setupChannel, this`registry, this`trace, this`endpoints, this`channels, this`wired, this`draws,
               this`consumerChannels
      ensures Valid() && (ok ==> prepared) && DryRun.Used(setups, service, after)
      ensures !prepared ==> Appended(old(trace), trace)
      ensures prepared ==>
                var phase := RunAll(m, setups, Opened(old(State()), env), env);
                && phase.ok && Later(Opened(old(State()), env), phase.c)
                && IsStart(phase.c, State(), order, n, ok)
                && (ok ==> consumerChannels == old(consumerChannels) + Numbers(phase.c.channels, |order|))
                && (EndpointsComplete(old(State())) ==> EndpointsComplete(phase.c))
      ensures DryRun.NeverFails(env) ==> (ok <==> RunAll(m, setups, Opened(old(State()), env), env).ok)
    {
      order, n, prepared := [], 0, false;
      ok, after := Prepare(setups);
      if !ok { return; }
      prepared := true;
      ok, order, n := StartConsumers();
    }

    /** Start. After the first Start of a connection, successful or not, declarations and bindings precede the
        close of the setup channel, which precedes every Consume, and no queue is consumed twice. A successful
        one leaves the connection running. With a broker that never fails, success depends on the setups only. */
    method Start(setups: seq<Setup>) returns (ok: bool, after: seq<Setup>)
      requires Valid() && AllLegit(setups)
      modifies this
      ensures Valid() && DryRun.Used(setups, service, after)
      ensures old(started) ==> !ok && unchanged(this)
      ensures !old(started) ==> (ok <==> started)
      ensures old(New()) ==> Orderly(trace, setupChannel, registry)
      ensures old(New()) && ok ==> Running()
      ensures !old(started) && DryRun.NeverFails(env) ==> (ok <==> RunAll(m, setups, Opened(old(State()), env), env).ok)
      ensures ok ==>
                var phase := RunAll(m, setups, Opened(old(State()), env), env);
                phase.ok && endpoints == phase.c.endpoints && registry == phase.c.registry
    {
      if started {
        assert setups == DryRun.AfterRun(setups, service, 0);
        return false, setups;
      }
      ghost var prepared, order, n;
      ok, after, prepared, order, n := Launch(setups);
      started := ok;
      if old(New()) {
        FreshIsComplete(service);
        if prepared {
          FirstStart(service, env, RunAll(m, setups, Opened(old(State()), env), env).c, State(), order, n, ok);
        } else {
          NothingConsumed(trace, setupChannel, registry);
        }
      }
    }

    /** The loop of Close and the final close of the connection, counting the errors. */
    method CloseEach() returns (errors: nat)
      modifies this`trace
      ensures trace == old(trace) + CloseEvents(consumerChannels, env.fails, |old(trace)|)
      ensures errors == Failures(CloseEvents(consumerChannels, env.fails, |old(trace)|))
    {
      ghost var all := CloseEvents(consumerChannels, env.fails, |old(trace)|);
      errors := 0;
      for i := 0 to |consumerChannels|
        invariant trace == old(trace) + all[..i] && errors == Failures(all[..i])
      {
        var ok := Perform(CloseChannel(consumerChannels[i]));
        assert all[..i+1] == all[..i] + [all[i]] && all[..i+1][..i] == all[..i];
        if !ok {
          errors := errors + 1;
        }
      }
      var ok := Perform(CloseConnection);
      assert all == all[..|all|-1] + [all[|all|-1]];
      if !ok {
        errors := errors + 1;
      }
    }

    /** Close. Nothing happens when the connection is not started. Otherwise every consumer channel and then the
        connection are closed, whatever fails; each of them exactly once in the connection's life. */
    method Close() returns (errors: nat)
      requires Valid()
      modifies this`started, this`trace
      ensures Valid() && !started
      ensures !old(started) ==> errors == 0 && unchanged(this)
      ensures old(started) ==>
                && trace == old(trace) + CloseEvents(consumerChannels, env.fails, |old(trace)|)
                && errors == |Refusals(trace, |old(trace)|)|
      ensures old(Running()) ==> AllClosed(trace, setupChannel, consumerChannels)
    {
      if !started {
        return 0;
      }
      started := false;
      errors := CloseEach();
      FailuresAreRefusals(old(trace), CloseEvents(consumerChannels, env.fails, |old(trace)|));
      ClosesKeep(m, old(State()), consumerChannels, env.fails, |consumerChannels| + 1, State());
      if old(Running()) {
        CloseClosesOnce(old(trace), env.fails, setupChannel, consumerChannels);
      }
    }
  }

  // ---------------------------------------------------------------------------------------------
  // Whole lives
  // ---------------------------------------------------------------------------------------------

  /** The no-op channel refuses nothing. */
  function Refuses(i: nat): bool { false }

  /** CollectTopology: the setups against a connection whose every operation succeeds. */
  method CollectTopology(service: string, m: R.Matcher, rand: nat -> string, setups: seq<Setup>)
    returns (r: Option<seq<Endpoint>>, after: seq<Setup>)
    requires R.Sound(m) && AllLegit(setups)
    ensures
      var phase := RunAll(m, setups, Fresh(service), Env(Refuses, rand));
      r == if phase.ok then Some(phase.c.endpoints) else None
    ensures DryRun.Used(setups, service, after)
  {
    var c := new Connection(service, m, Env(Refuses, rand));
    var ok;
    ok, after := c.ApplyAll(setups);
    r := if ok then Some(c.endpoints) else None;
  }

  lemma UsedStaysLegit(setups: seq<Setup>, service: string, after: seq<Setup>)
    requires AllLegit(setups) && DryRun.Used(setups, service, after)
    ensures AllLegit(after)
  {
    var n :| 0 <= n <= |setups| && after == DryRun.AfterRun(setups, service, n);
    forall s | s in after
      ensures Legit(s)
    {
      var i :| 0 <= i < |setups| && s == after[i];
      assert Legit(setups[i]);
    }
  }

  /** Dry run and real run. The topology is collected, a new connection is started, and the topology is collected
      again, all with the same setup values, which each run modifies further: the two topologies are equal, a
      successful Start leaves exactly their endpoints, and with a broker that never fails Start succeeds exactly
      when they could be collected. */
  method CollectStartCollect(service: string, m: R.Matcher, env: Env, setups: seq<Setup>)
    returns (first: Option<seq<Endpoint>>, ok: bool, c: Connection, second: Option<seq<Endpoint>>)
    requires R.Sound(m) && AllLegit(setups)
    ensures first == second
    ensures ok ==> c.Running() && first == Some(c.endpoints)
    ensures DryRun.NeverFails(env) ==> (ok <==> first.Some?)
  {
    ghost var dry, blank := Env(Refuses, env.rand), Fresh(service);
    var once, twice, thrice;
    first, once := CollectTopology(service, m, env.rand, setups);
    UsedStaysLegit(setups, service, once);
    DryRun.UsedIsStale(setups, setups, service, once);
    c := new Connection(service, m, env);
    DryRun.DryRunFaithful(m, setups, setups, once, blank, Opened(blank, env), dry, env);
    ok, twice := c.Start(once);
    UsedStaysLegit(once, service, twice);
    DryRun.UsedIsStale(setups, once, service, twice);
    DryRun.DryRunFaithful(m, setups, setups, twice, blank, blank, dry, dry);
    second, thrice := CollectTopology(service, m, env.rand, twice);
  }

  /** A connection's life: started once and closed twice. If it starts, the trace up to then is in order, every
      consume channel is closed exactly once and the connection last, and the second Close does nothing; if it
      does not start, nothing is ever closed by Close. */
  method StartCloseClose(service: string, m: R.Matcher, env: Env, setups: seq<Setup>)
    returns (ok: bool, started: seq<Event>, errors: nat, again: nat, c: Connection)
    requires R.Sound(m) && AllLegit(setups)
    ensures started <= c.trace && Orderly(started, c.setupChannel, c.registry)
    ensures ok ==> AllConsumed(started, c.setupChannel, c.registry, c.consumerChannels)
                   && AllClosed(c.trace, c.setupChannel, c.consumerChannels)
    ensures ok ==> EndpointBijection(c.registry, c.endpoints)
    ensures !ok ==> c.trace == started && errors == 0
    ensures again == 0
  {
    c := new Connection(service, m, env);
    var used;
    ok, used := c.Start(setups);
    started := c.trace;
    errors := c.Close();
    again := c.Close();
  }
}
