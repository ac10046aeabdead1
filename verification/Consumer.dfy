/** The delivery loop of one queue: handler lookup, settlement and counters. */
module Consumer {
  import opened Basics
  import opened GoErrors
  import Registry

  datatype Delivery = Delivery(tag: nat, exchange: string, key: string, headers: Table, body: string)

  /** The acknowledgement methods of amqp.Delivery. */
  datatype Settlement =
    | Ack(tag: nat, multiple: bool)
    | Nack(tag: nat, multiple: bool, requeue: bool)
    | Reject(tag: nat, requeue: bool)

  function CallFor(tag: nat, v: Verdict): Settlement {
    match v
    case Acknowledge => Ack(tag, false)
    case Requeue => Nack(tag, false, true)
    case DropUnparsable => Nack(tag, false, false)
    case DropUntyped => Reject(tag, false)
    case DropUnhandled => Reject(tag, false)
  }

  predicate Multiple(c: Settlement) { !c.Reject? && c.multiple }

  /** How a handling ends, by what is in the error. */
  datatype Outcome = Success | Failure | BadPayload | NoType | Unhandled

  ghost function OutcomeOf(h: Handling): Outcome {
    match h
    case NoHandler => Unhandled
    case Ran(None) => Success
    case Ran(Some(err)) =>
      if Contains(err, ParseJSON) then BadPayload else if Contains(err, NoMessageType) then NoType else Failure
  }

  /** The call settles this tag alone: success is acked, an ordinary failure is requeued, and only what cannot be
      handled is discarded. */
  ghost predicate Fits(c: Settlement, tag: nat, o: Outcome) {
    && c.tag == tag && !Multiple(c)
    && (c.Ack? <==> o.Success?)
    && (!c.Ack? ==> (c.requeue <==> o.Failure?))
    && (c.Nack? <==> o.Failure? || o.BadPayload?)
  }

  function OutcomeFor(v: Verdict): Outcome {
    match v
    case Acknowledge => Success
    case Requeue => Failure
    case DropUnparsable => BadPayload
    case DropUntyped => NoType
    case DropUnhandled => Unhandled
  }

  lemma VerdictOutcome(h: Handling)
    ensures OutcomeOf(h) == OutcomeFor(VerdictOf(h))
  {
    if h.Ran? && h.err.Some? {
      DispositionExact(h.err.value);
    }
  }

  lemma CallFits(tag: nat, h: Handling)
    ensures Fits(CallFor(tag, VerdictOf(h)), tag, OutcomeOf(h))
  {
    VerdictOutcome(h);
  }

  // ---------------------------------------------------------------------------------------------
  // Counters
  // ---------------------------------------------------------------------------------------------

  /** Queue and mapped routing key, the label pair of the consumer counters. */
  type Label = (string, string)
  type Counter = map<Label, int>

  datatype Counters = Counters(received: Counter, acked: Counter, nacked: Counter, withoutHandler: Counter,
                               notParsable: Counter)

  const NO_COUNTS := Counters(map[], map[], map[], map[], map[])

  function Count(c: Counter, l: Label): int { if l in c then c[l] else 0 }
  function Inc(c: Counter, l: Label): Counter { c[l := Count(c, l) + 1] }

  /** routingKeyLabel for the mapper in force. */
  function RoutingKeyLabel(mapper: string -> string, key: string): string {
    if mapper(key) == "" then "unknown" else mapper(key)
  }

  function CountReceived(c: Counters, l: Label): Counters { c.(received := Inc(c.received, l)) }

  /** The counter each settlement increments. */
  function CountVerdict(c: Counters, l: Label, v: Verdict): Counters {
    match v
    case Acknowledge => c.(acked := Inc(c.acked, l))
    case Requeue => c.(nacked := Inc(c.nacked, l))
    case DropUnparsable => c.(notParsable := Inc(c.notParsable, l))
    case DropUntyped => c.(withoutHandler := Inc(c.withoutHandler, l))
    case DropUnhandled => c.(withoutHandler := Inc(c.withoutHandler, l))
  }

  function Settled(c: Counters, l: Label): int {
    Count(c.acked, l) + Count(c.nacked, l) + Count(c.withoutHandler, l) + Count(c.notParsable, l)
  }

  /** Received but not yet settled, per label. */
  function InFlight(c: Counters, l: Label): int { Count(c.received, l) - Settled(c, l) }

  function One(b: bool): int { if b then 1 else 0 }

  /** For label k: from c to c', exactly the counter of the outcome rose by one, if k is the label l. */
  ghost predicate CountedAt(c: Counters, c': Counters, k: Label, l: Label, o: Outcome) {
    && Count(c'.received, k) == Count(c.received, k)
    && Count(c'.acked, k) == Count(c.acked, k) + One(k == l && o.Success?)
    && Count(c'.nacked, k) == Count(c.nacked, k) + One(k == l && o.Failure?)
    && Count(c'.notParsable, k) == Count(c.notParsable, k) + One(k == l && o.BadPayload?)
    && Count(c'.withoutHandler, k) == Count(c.withoutHandler, k) + One(k == l && (o.NoType? || o.Unhandled?))
  }

  /** One delivery with label l and this outcome was counted as settled, in its counter only. */
  ghost predicate Counted(c: Counters, c': Counters, l: Label, o: Outcome) {
    forall k :: CountedAt(c, c', k, l, o)
  }

  lemma IncCounts(c: Counter, l: Label, k: Label)
    ensures Count(Inc(c, l), k) == Count(c, k) + One(k == l)
  {
  }

  lemma VerdictIsCountedAt(c: Counters, l: Label, v: Verdict, k: Label)
    ensures CountedAt(c, CountVerdict(c, l, v), k, l, OutcomeFor(v))
  {
    match v
    case Acknowledge => IncCounts(c.acked, l, k);
    case Requeue => IncCounts(c.nacked, l, k);
    case DropUnparsable => IncCounts(c.notParsable, l, k);
    case DropUntyped => IncCounts(c.withoutHandler, l, k);
    case DropUnhandled => IncCounts(c.withoutHandler, l, k);
  }

  lemma VerdictIsCounted(c: Counters, l: Label, h: Handling)
    ensures Counted(c, CountVerdict(c, l, VerdictOf(h)), l, OutcomeOf(h))
  {
    VerdictOutcome(h);
    var v := VerdictOf(h);
    var c' := CountVerdict(c, l, v);
    forall k
      ensures CountedAt(c, c', k, l, OutcomeFor(v))
    {
      VerdictIsCountedAt(c, l, v, k);
    }
  }

  lemma InFlightReceived(c: Counters, l: Label, k: Label)
    ensures InFlight(CountReceived(c, l), k) == InFlight(c, k) + if k == l then 1 else 0
  {
  }

  lemma InFlightVerdict(c: Counters, l: Label, v: Verdict, k: Label)
    ensures InFlight(CountVerdict(c, l, v), k) == InFlight(c, k) - if k == l then 1 else 0
  {
  }

  // ---------------------------------------------------------------------------------------------
  // The loop
  // ---------------------------------------------------------------------------------------------

  /** The handler for a key, as the registry determines it. */
  ghost function Lookup(m: Registry.Matcher, hs: Registry.Handlers, key: string): Option<Registry.Handler> {
    if exists p :: p in hs && m.matches(p, key) then
      var p :| p in hs && m.matches(p, key); Some(hs[p])
    else None
  }

  /** A handler's behaviour: what it returns for the i-th delivery of the run. */
  type Behaviour = (Registry.Handler, Delivery, nat) -> Option<GoError>

  ghost function HandlingOf(m: Registry.Matcher, hs: Registry.Handlers, run: Behaviour, d: Delivery, i: nat): Handling {
    match Lookup(m, hs, d.key)
    case None => NoHandler
    case Some(h) => Ran(run(h, d, i))
  }

  /** What handling delivery d, the i-th of the run, comes to: the handler of the pattern that matches its key
      is run, or there is none. */
  ghost predicate Handled(m: Registry.Matcher, hs: Registry.Handlers, run: Behaviour, d: Delivery, i: nat, o: Outcome) {
    && (forall p :: p in hs && m.matches(p, d.key) ==> o == OutcomeOf(Ran(run(hs[p], d, i))))
    && ((forall p :: p in hs ==> !m.matches(p, d.key)) ==> o.Unhandled?)
  }

  lemma HandlingIsHandled(m: Registry.Matcher, hs: Registry.Handlers, run: Behaviour, d: Delivery, i: nat)
    requires Registry.Sound(m) && Registry.Disjoint(m, hs)
    ensures Handled(m, hs, run, d, i, OutcomeOf(HandlingOf(m, hs, run, d, i)))
  {
    forall p | p in hs && m.matches(p, d.key)
      ensures HandlingOf(m, hs, run, d, i) == Ran(run(hs[p], d, i))
    {
      LookupAgrees(m, hs, d.key, Some(hs[p]));
    }
  }

  /** The settlement calls for deliveries with the given outcomes, one each and in order. */
  ghost predicate SettlesEach(calls: seq<Settlement>, ds: seq<Delivery>, outcomes: seq<Outcome>) {
    && |calls| == |ds| == |outcomes|
    && (forall i :: 0 <= i < |ds| ==> Fits(calls[i], ds[i].tag, outcomes[i]))
  }

  /** How many deliveries carry the label l and had outcome o. */
  function Tally(queue: string, mapper: string -> string, ds: seq<Delivery>, outcomes: seq<Outcome>, l: Label,
                 o: Outcome): nat
    requires |ds| == |outcomes|
  {
    if ds == [] then 0
    else
      var n := |ds| - 1;
      Tally(queue, mapper, ds[..n], outcomes[..n], l, o)
      + if l == LabelFor(queue, mapper, ds[n]) && outcomes[n] == o then 1 else 0
  }

  /** How many deliveries carry the label l. */
  function Occurrences(queue: string, mapper: string -> string, ds: seq<Delivery>, l: Label): nat {
    if ds == [] then 0
    else Occurrences(queue, mapper, ds[..|ds|-1], l) + if l == LabelFor(queue, mapper, ds[|ds|-1]) then 1 else 0
  }

  /** The label of a delivery: its queue, and its key as the mapper gives it, or "unknown". */
  function LabelFor(queue: string, mapper: string -> string, d: Delivery): Label {
    (queue, if mapper(d.key) != "" then mapper(d.key) else "unknown")
  }

  /** For label l: from c to c', the deliveries with that label were received and settled under their outcomes. */
  ghost predicate ProgressAt(c: Counters, c': Counters, queue: string, mapper: string -> string, ds: seq<Delivery>,
                             outcomes: seq<Outcome>, l: Label)
    requires |ds| == |outcomes|
  {
    && Count(c'.received, l) == Count(c.received, l) + Occurrences(queue, mapper, ds, l)
    && Count(c'.acked, l) == Count(c.acked, l) + Tally(queue, mapper, ds, outcomes, l, Success)
    && Count(c'.nacked, l) == Count(c.nacked, l) + Tally(queue, mapper, ds, outcomes, l, Failure)
    && Count(c'.notParsable, l) == Count(c.notParsable, l) + Tally(queue, mapper, ds, outcomes, l, BadPayload)
    && Count(c'.withoutHandler, l)
       == Count(c.withoutHandler, l) + Tally(queue, mapper, ds, outcomes, l, NoType)
          + Tally(queue, mapper, ds, outcomes, l, Unhandled)
    && InFlight(c', l) == InFlight(c, l)
  }

  ghost predicate Progress(c: Counters, c': Counters, queue: string, mapper: string -> string, ds: seq<Delivery>,
                           outcomes: seq<Outcome>)
    requires |ds| == |outcomes|
  {
    forall l :: ProgressAt(c, c', queue, mapper, ds, outcomes, l)
  }

  /** A whole turn: one more received with this label, then counted under its outcome. */
  ghost predicate TurnCounted(c: Counters, c': Counters, l: Label, o: Outcome) {
    && (forall k :: Count(c'.received, k) == Count(c.received, k) + One(k == l))
    && Counted(c.(received := c'.received), c', l, o)
  }

  lemma ReceivedIsCounted(c: Counters, l: Label)
    ensures forall k :: Count(CountReceived(c, l).received, k) == Count(c.received, k) + One(k == l)
  {
    forall k
      ensures Count(CountReceived(c, l).received, k) == Count(c.received, k) + One(k == l)
    {
      IncCounts(c.received, l, k);
    }
  }

  lemma LookupAgrees(m: Registry.Matcher, hs: Registry.Handlers, key: string, r: Option<Registry.Handler>)
    requires Registry.Sound(m) && Registry.Disjoint(m, hs) && Registry.IsLookup(m, hs, key, r)
    ensures r == Lookup(m, hs, key)
  {
    Registry.LookupUnique(m, hs, key, r, Lookup(m, hs, key));
  }

  class QueueConsumer {
    const queue: string
    const m: Registry.Matcher
    const mapper: string -> string
    var handlers: Registry.Handlers
    var calls: seq<Settlement>   // settlement calls issued, oldest first
    var counters: Counters

    constructor (queue: string, m: Registry.Matcher, handlers: Registry.Handlers, mapper: string -> string)
      ensures this.queue == queue && this.m == m && this.handlers == handlers && this.mapper == mapper
      ensures calls == [] && counters == NO_COUNTS
    {
      this.queue, this.m, this.handlers, this.mapper := queue, m, handlers, mapper;
      calls, counters := [], NO_COUNTS;
    }

    /** queueConsumer.loop over the deliveries that arrive until the channel is closed. Every delivery
        gets exactly one settlement call of its own, the one its outcome calls for, and is counted once as received
        and once under its outcome. */
    method Loop(ds: seq<Delivery>, run: Behaviour) returns (ghost outcomes: seq<Outcome>)
      requires Registry.Sound(m) && Registry.Disjoint(m, handlers)
      modifies this
      ensures handlers == old(handlers) && |outcomes| == |ds|
      ensures forall i :: 0 <= i < |ds| ==> Handled(m, handlers, run, ds[i], i, outcomes[i])
      ensures |calls| == |old(calls)| + |ds| && calls[..|old(calls)|] == old(calls)
      ensures SettlesEach(calls[|old(calls)|..], ds, outcomes)
      ensures Progress(old(counters), counters, queue, mapper, ds, outcomes)
    {
      ghost var start := |calls|;
      outcomes := [];
      for i := 0 to |ds|
        invariant handlers == old(handlers) && |outcomes| == i
        invariant forall j :: 0 <= j < i ==> Handled(m, handlers, run, ds[j], j, outcomes[j])
        invariant |calls| == start + i && calls[..start] == old(calls)
        invariant SettlesEach(calls[start..], ds[..i], outcomes)
        invariant Progress(old(counters), counters, queue, mapper, ds[..i], outcomes)
      {
        ghost var before, atHead := calls, counters;
        ghost var o := Turn(ds[i], run, i);
        assert calls[start..] == before[start..] + [calls[start + i]];
        SettlesNext(before[start..], ds, outcomes, i, calls[start + i], o);
        ProgressNext(old(counters), atHead, counters, queue, mapper, ds, outcomes, i, o);
        outcomes := outcomes + [o];
      }
      assert ds[..|ds|] == ds;
    }

    /** One turn of the loop. */
    method Turn(d: Delivery, run: Behaviour, i: nat) returns (ghost o: Outcome)
      requires Registry.Sound(m) && Registry.Disjoint(m, handlers)
      modifies this`calls, this`counters
      ensures Handled(m, handlers, run, d, i, o)
      ensures |calls| == |old(calls)| + 1 && calls[..|old(calls)|] == old(calls)
      ensures Fits(calls[|old(calls)|], d.tag, o)
      ensures TurnCounted(old(counters), counters, LabelFor(queue, mapper, d), o)
    {
      counters := CountReceived(counters, (queue, RoutingKeyLabel(mapper, d.key)));
      ReceivedIsCounted(old(counters), LabelFor(queue, mapper, d));
      var h, _ := Registry.FindHandler(m, handlers, d.key);
      LookupAgrees(m, handlers, d.key, h);
      HandlingIsHandled(m, handlers, run, d, i);
      if h.None? {
        o := RejectUnhandled(d);
      } else {
        o := HandleDelivery(h.value, d, run, i);
      }
    }

    /** The branch of the loop for a key without a handler. */
    method RejectUnhandled(d: Delivery) returns (ghost o: Outcome)
      modifies this`calls, this`counters
      ensures o == Unhandled
      ensures |calls| == |old(calls)| + 1 && calls[..|old(calls)|] == old(calls)
      ensures Fits(calls[|old(calls)|], d.tag, o)
      ensures counters.received == old(counters).received
      ensures Counted(old(counters), counters, LabelFor(queue, mapper, d), o)
    {
      var key := (queue, RoutingKeyLabel(mapper, d.key));
      VerdictIsCounted(counters, key, NoHandler);
      counters := counters.(withoutHandler := Inc(counters.withoutHandler, key));
      calls := calls + [Reject(d.tag, false)];
      o := Unhandled;
    }

    /** handleDelivery and rejectOrNack. */
    method HandleDelivery(h: Registry.Handler, d: Delivery, run: Behaviour, i: nat) returns (ghost o: Outcome)
      modifies this`calls, this`counters
      ensures o == OutcomeOf(Ran(run(h, d, i)))
      ensures |calls| == |old(calls)| + 1 && calls[..|old(calls)|] == old(calls)
      ensures
        var c, err := calls[|old(calls)|], run(h, d, i);
        && c.tag == d.tag && !Multiple(c)
        && (c.Ack? <==> err.None?)
        && (!c.Ack? ==> (c.requeue <==> !Contains(err.value, ParseJSON) && !Contains(err.value, NoMessageType)))
        && Fits(c, d.tag, o)
      ensures counters.received == old(counters).received
      ensures Counted(old(counters), counters, LabelFor(queue, mapper, d), o)
    {
      var key := (queue, RoutingKeyLabel(mapper, d.key));
      var err := run(h, d, i);
      o := OutcomeOf(Ran(err));
      VerdictIsCounted(counters, key, Ran(err));
      if err.Some? {
        DispositionExact(err.value);
        if Is(err.value, ParseJSON) {
          counters := counters.(notParsable := Inc(counters.notParsable, key));
          calls := calls + [Nack(d.tag, false, false)];
        } else if Is(err.value, NoMessageType) {
          counters := counters.(withoutHandler := Inc(counters.withoutHandler, key));
          calls := calls + [Reject(d.tag, false)];
        } else {
          counters := counters.(nacked := Inc(counters.nacked, key));
          calls := calls + [Nack(d.tag, false, true)];
        }
        return;
      }
      calls := calls + [Ack(d.tag, false)];
      counters := counters.(acked := Inc(counters.acked, key));
    }
  }

  lemma TallyNext(queue: string, mapper: string -> string, ds: seq<Delivery>, outcomes: seq<Outcome>, i: nat,
                  o: Outcome, l: Label, x: Outcome)
    requires i < |ds| && |outcomes| == i
    ensures Tally(queue, mapper, ds[..i+1], outcomes + [o], l, x)
         == Tally(queue, mapper, ds[..i], outcomes, l, x)
            + if l == LabelFor(queue, mapper, ds[i]) && o == x then 1 else 0
    ensures Occurrences(queue, mapper, ds[..i+1], l)
         == Occurrences(queue, mapper, ds[..i], l) + if l == LabelFor(queue, mapper, ds[i]) then 1 else 0
  {
    assert ds[..i+1][..i] == ds[..i] && (outcomes + [o])[..i] == outcomes;
    assert ds[..i+1][i] == ds[i];
  }

  lemma ProgressNextAt(c: Counters, c1: Counters, c2: Counters, queue: string, mapper: string -> string,
                       ds: seq<Delivery>, outcomes: seq<Outcome>, i: nat, o: Outcome, l: Label)
    requires i < |ds| && |outcomes| == i && ProgressAt(c, c1, queue, mapper, ds[..i], outcomes, l)
    requires Count(c2.received, l) == Count(c1.received, l) + One(l == LabelFor(queue, mapper, ds[i]))
    requires CountedAt(c1.(received := c2.received), c2, l, LabelFor(queue, mapper, ds[i]), o)
    ensures ProgressAt(c, c2, queue, mapper, ds[..i+1], outcomes + [o], l)
  {
    TallyNext(queue, mapper, ds, outcomes, i, o, l, Success);
    TallyNext(queue, mapper, ds, outcomes, i, o, l, Failure);
    TallyNext(queue, mapper, ds, outcomes, i, o, l, BadPayload);
    TallyNext(queue, mapper, ds, outcomes, i, o, l, NoType);
    TallyNext(queue, mapper, ds, outcomes, i, o, l, Unhandled);
  }

  lemma ProgressNext(c: Counters, c1: Counters, c2: Counters, queue: string, mapper: string -> string,
                     ds: seq<Delivery>, outcomes: seq<Outcome>, i: nat, o: Outcome)
    requires i < |ds| && |outcomes| == i && Progress(c, c1, queue, mapper, ds[..i], outcomes)
    requires TurnCounted(c1, c2, LabelFor(queue, mapper, ds[i]), o)
    ensures Progress(c, c2, queue, mapper, ds[..i+1], outcomes + [o])
  {
    var ds', outcomes' := ds[..i+1], outcomes + [o];
    forall l
      ensures ProgressAt(c, c2, queue, mapper, ds', outcomes', l)
    {
      assert ProgressAt(c, c1, queue, mapper, ds[..i], outcomes, l);
      ProgressNextAt(c, c1, c2, queue, mapper, ds, outcomes, i, o, l);
    }
  }

  lemma SettlesNext(calls: seq<Settlement>, ds: seq<Delivery>, outcomes: seq<Outcome>, i: nat, c: Settlement,
                    o: Outcome)
    requires i < |ds| && SettlesEach(calls, ds[..i], outcomes) && Fits(c, ds[i].tag, o)
    ensures SettlesEach(calls + [c], ds[..i+1], outcomes + [o])
  {
  }

  /** Exactly-once settlement: when the broker numbers deliveries without repetition, as it does within
      a channel, no two calls settle the same tag, every tag is settled, and none with multiple=true. */
  lemma ExactlyOnce(calls: seq<Settlement>, ds: seq<Delivery>, outcomes: seq<Outcome>, i: nat)
    requires SettlesEach(calls, ds, outcomes) && i < |ds|
    requires forall a, b :: 0 <= a < b < |ds| ==> ds[a].tag != ds[b].tag
    ensures forall j :: 0 <= j < |calls| ==> (calls[j].tag == ds[i].tag <==> j == i)
    ensures !Multiple(calls[i])
  {
    forall j | 0 <= j < |calls|
      ensures calls[j].tag == ds[i].tag <==> j == i
    {
      assert Fits(calls[j], ds[j].tag, outcomes[j]);
    }
    assert Fits(calls[i], ds[i].tag, outcomes[i]);
  }
}
