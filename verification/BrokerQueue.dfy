/** The delivery loop against a broker queue, over whole runs: redelivery of requeued messages, lost
    settlement calls and disconnects included. */
module BrokerQueue {
  import opened Basics
  import opened GoErrors
  import opened Consumer

  type Msg = nat

  /** keyLabel gives each message the label its routing key maps to. */
  datatype Config = Config(queue: string, keyLabel: Msg -> string)

  datatype State = State(
    published: set<Msg>,
    ready: seq<Msg>,
    unacked: map<nat, Msg>,    // by delivery tag
    acked: set<Msg>,
    discarded: set<Msg>,
    deliveries: seq<Msg>,      // deliveries[t] went to the consumer with tag t
    taken: nat,                // how many of them the loop has started on
    busy: bool,                // the loop is between taking delivery taken - 1 and settling it
    calls: seq<Settlement>,
    counters: Counters
  )

  const INIT := State({}, [], map[], {}, {}, [], 0, false, [], NO_COUNTS)

  datatype Step =
    | Publish(msg: Msg)
    | Deliver                                       // the broker sends the message at the head
    | Take                                          // loop head: next delivery, counted as received
    | Settle(h: Handling, reaches: bool, at: nat)   // handling ended with h; `reaches`: the call got to
                                                    // the broker; `at`: where a requeued message goes
    | Disconnect(back: seq<Msg>)                    // the broker requeues everything unacked

  ghost predicate Enabled(s: State, st: Step) {
    match st
    case Publish(m) => m !in s.published
    case Deliver => s.ready != []
    case Take => !s.busy && s.taken < |s.deliveries|
    case Settle(_, _, at) => s.busy && s.taken > 0 && s.taken <= |s.deliveries| && at <= |s.ready|
    case Disconnect(back) => IsOrder(s.unacked.Values, back)
  }

  function LabelOf(cfg: Config, m: Msg): Label { (cfg.queue, cfg.keyLabel(m)) }

  /** The broker's reaction to a settlement call for one tag: Ack removes the message for good, requeue=true puts
      it back, requeue=false discards it. A tag it no longer knows (the connection was lost in between) changes
      nothing. */
  function BrokerSettle(s: State, call: Settlement, at: nat): State
    requires at <= |s.ready| && !Multiple(call)
  {
    if call.tag !in s.unacked then s
    else
      var m := s.unacked[call.tag];
      var s' := s.(unacked := s.unacked - {call.tag});
      if call.Ack? then s'.(acked := s.acked + {m})
      else if call.requeue then s'.(ready := s.ready[..at] + [m] + s.ready[at..])
      else s'.(discarded := s.discarded + {m})
  }

  function Apply(cfg: Config, s: State, st: Step): State
    requires Enabled(s, st)
  {
    match st
    case Publish(m) => s.(published := s.published + {m}, ready := s.ready + [m])
    case Deliver =>
      s.(ready := s.ready[1..], unacked := s.unacked[|s.deliveries| := s.ready[0]],
         deliveries := s.deliveries + [s.ready[0]])
    case Take =>
      s.(taken := s.taken + 1, busy := true,
         counters := CountReceived(s.counters, LabelOf(cfg, s.deliveries[s.taken])))
    case Settle(h, reaches, at) =>
      var tag := s.taken - 1;
      var call := CallFor(tag, VerdictOf(h));
      var s' := if reaches then BrokerSettle(s, call, at) else s;
      s'.(busy := false, calls := s.calls + [call],
          counters := CountVerdict(s.counters, LabelOf(cfg, s.deliveries[tag]), VerdictOf(h)))
    case Disconnect(back) => s.(unacked := map[], ready := back + s.ready)
  }

  ghost predicate Run(cfg: Config, steps: seq<Step>)
    decreases |steps|, 0
  {
    steps == [] ||
    (Run(cfg, steps[..|steps|-1]) && Enabled(Exec(cfg, steps[..|steps|-1]), steps[|steps|-1]))
  }

  ghost function Exec(cfg: Config, steps: seq<Step>): State
    requires Run(cfg, steps)
    decreases |steps|, 1
  {
    if steps == [] then INIT
    else Apply(cfg, Exec(cfg, steps[..|steps|-1]), steps[|steps|-1])
  }

  // ---------------------------------------------------------------------------------------------
  // Conservation
  // ---------------------------------------------------------------------------------------------

  /** In how many of the four places message m is. */
  function Places(s: State, m: Msg): nat {
    (if m in s.ready then 1 else 0) + (if m in s.unacked.Values then 1 else 0)
    + (if m in s.acked then 1 else 0) + (if m in s.discarded then 1 else 0)
  }

  ghost predicate NoDuplicates(s: State) {
    && (forall i, j :: 0 <= i < j < |s.ready| ==> s.ready[i] != s.ready[j])
    && (forall t, u :: t in s.unacked && u in s.unacked && s.unacked[t] == s.unacked[u] ==> t == u)
  }

  ghost predicate TagsKnown(s: State) {
    && (forall t :: t in s.unacked ==> t < |s.deliveries| && s.unacked[t] == s.deliveries[t])
    && s.taken <= |s.deliveries| && (s.busy ==> s.taken > 0)
  }

  ghost predicate Conserved(s: State) {
    && NoDuplicates(s) && TagsKnown(s)
    && (forall m :: Places(s, m) == if m in s.published then 1 else 0)
  }

  lemma PublishConserves(cfg: Config, s: State, m: Msg)
    requires Conserved(s) && Enabled(s, Publish(m))
    ensures Conserved(Apply(cfg, s, Publish(m)))
  {
    assert Places(s, m) == 0;
    forall k
      ensures Places(Apply(cfg, s, Publish(m)), k) == Places(s, k) + if k == m then 1 else 0
    {
    }
  }

  lemma DeliverConserves(cfg: Config, s: State)
    requires Conserved(s) && Enabled(s, Deliver)
    ensures Conserved(Apply(cfg, s, Deliver))
  {
    var s', m := Apply(cfg, s, Deliver), s.ready[0];
    assert m in s.ready && Places(s, m) == 1;
    assert s.ready == [m] + s.ready[1..];
    assert |s.deliveries| !in s.unacked;
    assert s'.unacked[|s.deliveries|] == m;
    forall k
      ensures Places(s', k) == Places(s, k)
    {
      assert k in s'.unacked.Values <==> k == m || k in s.unacked.Values by {
        if k in s.unacked.Values {
          var t :| t in s.unacked && s.unacked[t] == k;
          assert s'.unacked[t] == k;
        }
      }
      assert k in s'.ready <==> k in s.ready && k != m;
    }
  }

  lemma SettleConserves(s: State, call: Settlement, at: nat)
    requires Conserved(s) && at <= |s.ready| && !Multiple(call)
    ensures Conserved(BrokerSettle(s, call, at))
  {
    if call.tag in s.unacked {
      var s', m := BrokerSettle(s, call, at), s.unacked[call.tag];
      assert m in s.unacked.Values && Places(s, m) == 1;
      forall k
        ensures Places(s', k) == Places(s, k)
      {
        assert k in s'.unacked.Values <==> k in s.unacked.Values && k != m by {
          if k in s.unacked.Values && k != m {
            var t :| t in s.unacked && s.unacked[t] == k;
            assert s'.unacked[t] == k;
          }
        }
        if !call.Ack? && call.requeue {
          InsertMembers(s.ready, at, m, k);
        }
      }
      if !call.Ack? && call.requeue {
        InsertDistinct(s.ready, at, m);
      }
    }
  }

  lemma InsertMembers(q: seq<Msg>, at: nat, m: Msg, k: Msg)
    requires at <= |q|
    ensures k in q[..at] + [m] + q[at..] <==> k in q || k == m
  {
    assert q == q[..at] + q[at..];
  }

  lemma InsertDistinct(q: seq<Msg>, at: nat, m: Msg)
    requires at <= |q| && m !in q
    requires forall i, j :: 0 <= i < j < |q| ==> q[i] != q[j]
    ensures var r := q[..at] + [m] + q[at..]; forall i, j :: 0 <= i < j < |r| ==> r[i] != r[j]
  {
  }

  lemma DisconnectConserves(cfg: Config, s: State, back: seq<Msg>)
    requires Conserved(s) && Enabled(s, Disconnect(back))
    ensures Conserved(Apply(cfg, s, Disconnect(back)))
  {
    var s' := Apply(cfg, s, Disconnect(back));
    assert s'.unacked.Values == {};
    forall k
      ensures Places(s', k) == Places(s, k)
    {
      assert Places(s, k) <= 1;
    }
    forall i, j | 0 <= i < j < |s'.ready|
      ensures s'.ready[i] != s'.ready[j]
    {
      if i < |back| <= j {
        assert s'.ready[i] in back && s'.ready[j] in s.ready;
        assert Places(s, s'.ready[i]) <= 1;
      }
    }
  }

  lemma SamePlaces(s: State, s': State)
    requires Conserved(s) && s'.published == s.published && s'.ready == s.ready && s'.unacked == s.unacked
    requires s'.acked == s.acked && s'.discarded == s.discarded && s'.deliveries == s.deliveries && TagsKnown(s')
    ensures Conserved(s')
  {
    forall m
      ensures Places(s', m) == Places(s, m)
    {
    }
  }

  lemma SettleStepConserves(cfg: Config, s: State, st: Step)
    requires Conserved(s) && Enabled(s, st) && st.Settle?
    ensures Conserved(Apply(cfg, s, st))
  {
    var call := CallFor(s.taken - 1, VerdictOf(st.h));
    SettleConserves(s, call, st.at);
    SamePlaces(if st.reaches then BrokerSettle(s, call, st.at) else s, Apply(cfg, s, st));
  }

  lemma StepConserves(cfg: Config, s: State, st: Step)
    requires Conserved(s) && Enabled(s, st)
    ensures Conserved(Apply(cfg, s, st))
  {
    match st
    case Publish(m) => PublishConserves(cfg, s, m);
    case Deliver => DeliverConserves(cfg, s);
    case Take => SamePlaces(s, Apply(cfg, s, st));
    case Settle(_, _, _) => SettleStepConserves(cfg, s, st);
    case Disconnect(back) => DisconnectConserves(cfg, s, back);
  }

  /** In every reachable state every published message is in exactly one of ready, unacked, acked and
      discarded, once, and nothing else is anywhere. */
  lemma {:induction false} MessageConservation(cfg: Config, steps: seq<Step>)
    requires Run(cfg, steps)
    ensures Conserved(Exec(cfg, steps))
  {
    if steps != [] {
      MessageConservation(cfg, steps[..|steps|-1]);
      StepConserves(cfg, Exec(cfg, steps[..|steps|-1]), steps[|steps|-1]);
    }
  }

  // ---------------------------------------------------------------------------------------------
  // Why a message is gone
  // ---------------------------------------------------------------------------------------------

  predicate Gone(s: State, m: Msg, drop: bool) { if drop then m in s.discarded else m in s.acked }

  /** The handling found no handler, a payload that does not parse, or no type for the key. */
  ghost predicate Hopeless(h: Handling) {
    match h
    case NoHandler => true
    case Ran(None) => false
    case Ran(Some(err)) => Contains(err, ParseJSON) || Contains(err, NoMessageType)
  }

  /** Taken in s, the step settles message m for good, by a call that gets to the broker: after a hopeless
      handling, or (drop = false) after a successful one. */
  ghost predicate Settles(s: State, st: Step, m: Msg, drop: bool) {
    && st.Settle? && st.reaches
    && s.taken - 1 in s.unacked && s.unacked[s.taken - 1] == m
    && (if drop then Hopeless(st.h) else st.h == Ran(None))
  }

  lemma GoneStep(cfg: Config, s: State, st: Step, m: Msg, drop: bool)
    requires Enabled(s, st)
    ensures Gone(Apply(cfg, s, st), m, drop) <==> Gone(s, m, drop) || Settles(s, st, m, drop)
  {
    if st.Settle? {
      CallFits(s.taken - 1, st.h);
      HopelessOutcome(st.h);
    }
  }

  lemma HopelessOutcome(h: Handling)
    ensures Hopeless(h) <==> OutcomeOf(h).BadPayload? || OutcomeOf(h).NoType? || OutcomeOf(h).Unhandled?
    ensures h == Ran(None) <==> OutcomeOf(h).Success?
  {
  }

  ghost predicate SettledAt(cfg: Config, steps: seq<Step>, i: nat, m: Msg, drop: bool) {
    i < |steps| && Run(cfg, steps[..i]) && Settles(Exec(cfg, steps[..i]), steps[i], m, drop)
  }

  ghost predicate EverSettled(cfg: Config, steps: seq<Step>, m: Msg, drop: bool) {
    exists i: nat :: SettledAt(cfg, steps, i, m, drop)
  }

  lemma {:induction false} PrefixRun(cfg: Config, steps: seq<Step>, i: nat)
    requires Run(cfg, steps) && i <= |steps|
    ensures Run(cfg, steps[..i])
    ensures i < |steps| ==> Enabled(Exec(cfg, steps[..i]), steps[i])
    decreases |steps|
  {
    var n := |steps| - 1;
    if i == |steps| {
      assert steps[..i] == steps;
    } else {
      PrefixRun(cfg, steps[..n], i);
      assert steps[..n][..i] == steps[..i];
      if i == n { assert steps[..n] == steps[..i]; } else { assert steps[..n][i] == steps[i]; }
    }
  }

  lemma SettledExtends(cfg: Config, steps: seq<Step>, i: nat, m: Msg, drop: bool)
    requires i < |steps| - 1
    ensures SettledAt(cfg, steps, i, m, drop) <==> SettledAt(cfg, steps[..|steps|-1], i, m, drop)
  {
    var front := steps[..|steps|-1];
    assert front[..i] == steps[..i] && front[i] == steps[i];
  }

  /** A message is discarded exactly when some turn of the loop ended without a handler, with a parse
      failure or without a type mapping for it; it is acked exactly when some turn handled it without
      error. Both require that the broker received the call, and neither is ever undone. */
  lemma {:induction false} GoneForAReason(cfg: Config, steps: seq<Step>, m: Msg, drop: bool)
    requires Run(cfg, steps)
    ensures Gone(Exec(cfg, steps), m, drop) <==> EverSettled(cfg, steps, m, drop)
  {
    if steps != [] {
      var n := |steps| - 1;
      var front := steps[..n];
      GoneForAReason(cfg, front, m, drop);
      GoneStep(cfg, Exec(cfg, front), steps[n], m, drop);
      SettledSoFar(cfg, steps, m, drop);
    }
  }

  lemma SettledSoFar(cfg: Config, steps: seq<Step>, m: Msg, drop: bool)
    requires steps != []
    ensures EverSettled(cfg, steps, m, drop)
            <==> SettledAt(cfg, steps, |steps| - 1, m, drop) || EverSettled(cfg, steps[..|steps|-1], m, drop)
  {
    var front := steps[..|steps|-1];
    if i: nat :| SettledAt(cfg, steps, i, m, drop) {
      if i < |steps| - 1 {
        SettledExtends(cfg, steps, i, m, drop);
      }
    }
    if i: nat :| SettledAt(cfg, front, i, m, drop) {
      SettledExtends(cfg, steps, i, m, drop);
    }
  }

  /** Step i settles a delivery of message m. */
  ghost predicate HandledAt(cfg: Config, steps: seq<Step>, i: nat, m: Msg)
    requires Run(cfg, steps) && i < |steps|
  {
    PrefixRun(cfg, steps, i);
    var s := Exec(cfg, steps[..i]);
    0 < s.taken <= |s.deliveries| && s.deliveries[s.taken - 1] == m
  }

  lemma SettlesDelivery(s: State, st: Step, m: Msg, drop: bool)
    requires Conserved(s) && Settles(s, st, m, drop)
    ensures 0 < s.taken <= |s.deliveries| && s.deliveries[s.taken - 1] == m
  {
  }

  lemma SettledIsHandled(cfg: Config, steps: seq<Step>, i: nat, m: Msg, drop: bool)
    requires Run(cfg, steps) && SettledAt(cfg, steps, i, m, drop)
    ensures steps[i].Settle? && HandledAt(cfg, steps, i, m)
  {
    MessageConservation(cfg, steps[..i]);
    SettlesDelivery(Exec(cfg, steps[..i]), steps[i], m, drop);
  }

  /** A message whose every handling found a handler and ended in success or in an error free of both sentinels is
      never discarded: it is ready, unacked or acked. */
  lemma OtherErrorsNeverLose(cfg: Config, steps: seq<Step>, m: Msg)
    requires Run(cfg, steps) && m in Exec(cfg, steps).published
    requires forall i: nat :: i < |steps| && steps[i].Settle? && HandledAt(cfg, steps, i, m) ==> !Hopeless(steps[i].h)
    ensures
      var s := Exec(cfg, steps);
      m !in s.discarded && (m in s.ready || m in s.unacked.Values || m in s.acked)
  {
    GoneForAReason(cfg, steps, m, true);
    if i: nat :| SettledAt(cfg, steps, i, m, true) {
      SettledIsHandled(cfg, steps, i, m, true);
    }
    MessageConservation(cfg, steps);
    assert Places(Exec(cfg, steps), m) == 1;
  }

  // ---------------------------------------------------------------------------------------------
  // Settlement calls and counters
  // ---------------------------------------------------------------------------------------------

  ghost predicate Booked(cfg: Config, s: State) {
    && s.taken <= |s.deliveries| && (s.busy ==> s.taken > 0)
    && |s.calls| == s.taken - (if s.busy then 1 else 0)
    && (forall i :: 0 <= i < |s.calls| ==> s.calls[i].tag == i && !Multiple(s.calls[i]))
    && (forall l :: InFlight(s.counters, l)
                 == if s.busy && l == LabelOf(cfg, s.deliveries[s.taken - 1]) then 1 else 0)
  }

  lemma StepBooks(cfg: Config, s: State, st: Step)
    requires Booked(cfg, s) && Enabled(s, st)
    ensures Booked(cfg, Apply(cfg, s, st))
  {
    var s' := Apply(cfg, s, st);
    if st.Take? {
      var l := LabelOf(cfg, s.deliveries[s.taken]);
      forall k
        ensures InFlight(s'.counters, k) == if k == l then 1 else 0
      {
        InFlightReceived(s.counters, l, k);
      }
    } else if st.Settle? {
      var l := LabelOf(cfg, s.deliveries[s.taken - 1]);
      forall k
        ensures InFlight(s'.counters, k) == 0
      {
        InFlightVerdict(s.counters, l, VerdictOf(st.h), k);
      }
    } else {
      assert s'.counters == s.counters && s'.calls == s.calls;
      assert forall i :: 0 <= i < s.taken ==> s'.deliveries[i] == s.deliveries[i];
    }
  }

  /** In every reachable state the i-th settlement call is for tag i, so each delivery the loop has
      finished was settled by exactly one call, with multiple=false; and for every label, received
      equals ack + nack + withoutHandler + notParsable, plus one while a delivery with that label is
      being handled. */
  lemma {:induction false} CounterConservation(cfg: Config, steps: seq<Step>)
    requires Run(cfg, steps)
    ensures Booked(cfg, Exec(cfg, steps))
  {
    if steps != [] {
      CounterConservation(cfg, steps[..|steps|-1]);
      StepBooks(cfg, Exec(cfg, steps[..|steps|-1]), steps[|steps|-1]);
    }
  }
}
