/** A request queue whose handlers answer, over whole runs against the broker: how many responses a request
    gets, and what that has to do with its acknowledgement. */
module Answering {
  import opened Basics
  import opened GoErrors
  import opened BrokerQueue
  import H = Headers
  import Publishing
  import RR = RequestResponse

  /** The answering side: its service name, the headers each message is seen with, and the routing key of the
      handler each message finds, if it finds one. */
  datatype Desk = Desk(service: string, headers: Msg -> Table, route: Msg -> Option<string>)

  function HandlingOf(desk: Desk, parts: RR.Parts, m: Msg): Handling {
    match desk.route(m)
    case None => NoHandler
    case Some(key) => Ran(RR.Handle(desk.service, key, desk.headers(m), parts).err)
  }

  /** The response put on the wire while m is handled. */
  function SentFor(desk: Desk, parts: RR.Parts, m: Msg): Option<Publishing.Message> {
    match desk.route(m)
    case None => None
    case Some(key) => RR.Handle(desk.service, key, desk.headers(m), parts).sent
  }

  /** The step ends the handling of a delivery of m. */
  predicate SettlesMsg(s: State, st: Step, m: Msg) {
    st.Settle? && 0 < s.taken <= |s.deliveries| && s.deliveries[s.taken - 1] == m
  }

  /** The run of an answering consumer: step i of it meets parts(i). */
  ghost predicate AnsweringRun(cfg: Config, desk: Desk, parts: nat -> RR.Parts, steps: seq<Step>)
    decreases |steps|
  {
    && Run(cfg, steps)
    && (steps != [] ==>
          var n := |steps| - 1;
          && AnsweringRun(cfg, desk, parts, steps[..n])
          && forall m :: SettlesMsg(Exec(cfg, steps[..n]), steps[n], m) ==>
               steps[n].h == HandlingOf(desk, parts(n), m))
  }

  /** The responses sent for m in the course of the run. */
  ghost function Responses(cfg: Config, desk: Desk, parts: nat -> RR.Parts, steps: seq<Step>, m: Msg)
    : seq<Publishing.Message>
    requires Run(cfg, steps)
  {
    if steps == [] then []
    else
      var n := |steps| - 1;
      var sent := SentFor(desk, parts(n), m);
      Responses(cfg, desk, parts, steps[..n], m)
      + if SettlesMsg(Exec(cfg, steps[..n]), steps[n], m) && sent.Some? then [sent.value] else []
  }

  /** The handling of m ended without error. */
  predicate Succeeds(s: State, st: Step, m: Msg) { SettlesMsg(s, st, m) && st.h == Ran(None) }

  /** The turns on m that ended without error. */
  ghost function Successes(cfg: Config, steps: seq<Step>, m: Msg): nat
    requires Run(cfg, steps)
  {
    if steps == [] then 0
    else
      var n := |steps| - 1;
      Successes(cfg, steps[..n], m) + if Succeeds(Exec(cfg, steps[..n]), steps[n], m) then 1 else 0
  }

  /** An ack for m that changes nothing at the broker: it got lost, or the broker no longer knows the tag. */
  predicate LosesAck(s: State, st: Step, m: Msg) {
    Succeeds(s, st, m) && !(st.reaches && s.taken - 1 in s.unacked)
  }

  ghost function LostAcks(cfg: Config, steps: seq<Step>, m: Msg): nat
    requires Run(cfg, steps)
  {
    if steps == [] then 0
    else
      var n := |steps| - 1;
      LostAcks(cfg, steps[..n], m) + if LosesAck(Exec(cfg, steps[..n]), steps[n], m) then 1 else 0
  }

  // ---------------------------------------------------------------------------------------------
  // Responses and turns
  // ---------------------------------------------------------------------------------------------

  /** msg answers the sender of m, under the routing key of m's handler. */
  ghost predicate AnswersSender(desk: Desk, m: Msg, msg: Publishing.Message) {
    exists key, sender ::
      && desk.route(m) == Some(key)
      && "service" in desk.headers(m) && desk.headers(m)["service"] == Str(sender)
      && RR.Answers(msg, desk.service, sender, key)
  }

  lemma SentMeansSuccess(desk: Desk, parts: RR.Parts, m: Msg)
    ensures SentFor(desk, parts, m).Some? <==> HandlingOf(desk, parts, m) == Ran(None)
    ensures SentFor(desk, parts, m).Some? && H.SERVICE !in parts.env.carrier ==>
              AnswersSender(desk, m, SentFor(desk, parts, m).value)
  {
    match desk.route(m)
    case None =>
    case Some(key) => RR.StepAcksIffItSent(desk.service, key, desk.headers(m), parts);
  }

  ghost predicate PlainCarriers(parts: nat -> RR.Parts) {
    forall i :: H.SERVICE !in parts(i).env.carrier
  }

  /** The responses sent for m number exactly the turns on m that ended without error, and each of them is on
      the service's response exchange and addressed to the sender of m. */
  lemma {:induction false} OneResponsePerSuccess(cfg: Config, desk: Desk, parts: nat -> RR.Parts, steps: seq<Step>,
                                                 m: Msg)
    requires AnsweringRun(cfg, desk, parts, steps) && PlainCarriers(parts)
    ensures |Responses(cfg, desk, parts, steps, m)| == Successes(cfg, steps, m)
    ensures forall msg :: msg in Responses(cfg, desk, parts, steps, m) ==> AnswersSender(desk, m, msg)
  {
    if steps != [] {
      var n := |steps| - 1;
      OneResponsePerSuccess(cfg, desk, parts, steps[..n], m);
      SentMeansSuccess(desk, parts(n), m);
    }
  }

  // ---------------------------------------------------------------------------------------------
  // Turns and acknowledgement
  // ---------------------------------------------------------------------------------------------

  lemma AckStep(cfg: Config, s: State, st: Step, m: Msg)
    requires Conserved(s) && Enabled(s, st)
    ensures
      var s' := Apply(cfg, s, st);
      if Succeeds(s, st, m) && !LosesAck(s, st, m) then m !in s.acked && m in s'.acked
      else (m in s'.acked <==> m in s.acked)
  {
    if st.Settle? && s.taken - 1 in s.unacked {
      var k := s.unacked[s.taken - 1];
      assert k in s.unacked.Values && Places(s, k) <= 1;
      assert k == s.deliveries[s.taken - 1];
      match st.h
      case Ran(Some(err)) => assert !Disposition(err).Acknowledge?;
      case _ =>
    }
  }

  /** Conservation of successful turns: each of them acked m at the broker, which happens at most once, or its
      ack was lost. */
  lemma {:induction false} SuccessesAreAckedOrLost(cfg: Config, steps: seq<Step>, m: Msg)
    requires Run(cfg, steps)
    ensures Successes(cfg, steps, m) == LostAcks(cfg, steps, m) + if m in Exec(cfg, steps).acked then 1 else 0
  {
    if steps != [] {
      var n := |steps| - 1;
      SuccessesAreAckedOrLost(cfg, steps[..n], m);
      MessageConservation(cfg, steps[..n]);
      AckStep(cfg, Exec(cfg, steps[..n]), steps[n], m);
    }
  }

  ghost predicate DisconnectsAt(cfg: Config, steps: seq<Step>, j: nat, t: nat) {
    j < |steps| && steps[j].Disconnect? && Run(cfg, steps[..j]) && t < |Exec(cfg, steps[..j]).deliveries|
  }

  /** Some disconnect of the run came after the delivery with tag t. */
  ghost predicate CutOff(cfg: Config, steps: seq<Step>, t: nat) {
    exists j: nat :: DisconnectsAt(cfg, steps, j, t)
  }

  lemma CutOffStays(cfg: Config, steps: seq<Step>, i: nat, t: nat)
    requires i <= |steps| && CutOff(cfg, steps[..i], t)
    ensures CutOff(cfg, steps, t)
  {
    var j: nat :| DisconnectsAt(cfg, steps[..i], j, t);
    assert steps[..i][..j] == steps[..j];
    assert DisconnectsAt(cfg, steps, j, t);
  }

  /** A delivery that is not settled yet is known to the broker, unless a disconnect cut it off. */
  lemma {:induction false} UnsettledIsKnown(cfg: Config, steps: seq<Step>, t: nat)
    requires Run(cfg, steps) && |Exec(cfg, steps).calls| <= t < |Exec(cfg, steps).deliveries|
    ensures t in Exec(cfg, steps).unacked || CutOff(cfg, steps, t)
  {
    var n := |steps| - 1;
    var s := Exec(cfg, steps[..n]);
    CounterConservation(cfg, steps[..n]);
    if t < |s.deliveries| {
      UnsettledIsKnown(cfg, steps[..n], t);
      if steps[n].Disconnect? {
        assert DisconnectsAt(cfg, steps, n, t);
      } else if CutOff(cfg, steps[..n], t) {
        CutOffStays(cfg, steps, n, t);
      }
    }
  }

  /** Step i handled m without error, and its ack call did not get to the broker, or a disconnect came between
      the delivery and the call. */
  ghost predicate AckLostAt(cfg: Config, steps: seq<Step>, i: nat, m: Msg) {
    && i < |steps| && Run(cfg, steps[..i]) && Succeeds(Exec(cfg, steps[..i]), steps[i], m)
    && (!steps[i].reaches || CutOff(cfg, steps[..i], Exec(cfg, steps[..i]).taken - 1))
  }

  lemma {:induction false} LostAckHasCause(cfg: Config, steps: seq<Step>, m: Msg) returns (i: nat)
    requires Run(cfg, steps) && LostAcks(cfg, steps, m) > 0
    ensures AckLostAt(cfg, steps, i, m)
  {
    var n := |steps| - 1;
    var s := Exec(cfg, steps[..n]);
    if LosesAck(s, steps[n], m) {
      i := n;
      CounterConservation(cfg, steps[..n]);
      if steps[n].reaches {
        UnsettledIsKnown(cfg, steps[..n], s.taken - 1);
      }
    } else {
      i := LostAckHasCause(cfg, steps[..n], m);
      assert steps[..n][..i] == steps[..i];
    }
  }

  // ---------------------------------------------------------------------------------------------
  // The law
  // ---------------------------------------------------------------------------------------------

  /** A request is acked only after its response was sent. In every run, with redelivery, lost calls and
      disconnects: the responses sent for m are one for its acknowledgement, if it is acked at the broker, and
      one for every successful turn whose ack was lost. So an acked request was answered at least once, always
      to its sender. */
  lemma AckedIsAnswered(cfg: Config, desk: Desk, parts: nat -> RR.Parts, steps: seq<Step>, m: Msg)
    requires AnsweringRun(cfg, desk, parts, steps) && PlainCarriers(parts)
    ensures
      var responses, acked := Responses(cfg, desk, parts, steps, m), m in Exec(cfg, steps).acked;
      && |responses| == LostAcks(cfg, steps, m) + (if acked then 1 else 0)
      && (forall msg :: msg in responses ==> AnswersSender(desk, m, msg))
  {
    OneResponsePerSuccess(cfg, desk, parts, steps, m);
    SuccessesAreAckedOrLost(cfg, steps, m);
  }

  lemma ForgottenStays(cfg: Config, s: State, st: Step, t: nat)
    requires Enabled(s, st) && t < |s.deliveries| && t !in s.unacked
    ensures t < |Apply(cfg, s, st).deliveries| && t !in Apply(cfg, s, st).unacked
  {
  }

  /** A tag that was cut off is never known to the broker again. */
  lemma {:induction false} CutOffIsForgotten(cfg: Config, steps: seq<Step>, t: nat)
    requires Run(cfg, steps) && CutOff(cfg, steps, t)
    ensures t < |Exec(cfg, steps).deliveries| && t !in Exec(cfg, steps).unacked
    decreases |steps|
  {
    var j: nat :| DisconnectsAt(cfg, steps, j, t);
    var n := |steps| - 1;
    if j < n {
      assert steps[..n][..j] == steps[..j];
      assert DisconnectsAt(cfg, steps[..n], j, t);
      CutOffIsForgotten(cfg, steps[..n], t);
      ForgottenStays(cfg, Exec(cfg, steps[..n]), steps[n], t);
    }
  }

  lemma LastAckIsLost(cfg: Config, front: seq<Step>, st: Step, m: Msg)
    requires Run(cfg, front) && Succeeds(Exec(cfg, front), st, m)
    requires !st.reaches || CutOff(cfg, front, Exec(cfg, front).taken - 1)
    ensures LosesAck(Exec(cfg, front), st, m)
  {
    if st.reaches {
      CutOffIsForgotten(cfg, front, Exec(cfg, front).taken - 1);
    }
  }

  lemma AckLostInFront(cfg: Config, steps: seq<Step>, i: nat, m: Msg)
    requires i < |steps| - 1
    ensures AckLostAt(cfg, steps, i, m) <==> AckLostAt(cfg, steps[..|steps|-1], i, m)
  {
    var front := steps[..|steps|-1];
    assert front[..i] == steps[..i] && front[i] == steps[i];
  }

  lemma {:induction false} LostAckCounts(cfg: Config, steps: seq<Step>, i: nat, m: Msg)
    requires Run(cfg, steps) && AckLostAt(cfg, steps, i, m)
    ensures LostAcks(cfg, steps, m) > 0
    decreases |steps|
  {
    var n := |steps| - 1;
    if i == n {
      LastAckIsLost(cfg, steps[..n], steps[n], m);
    } else {
      AckLostInFront(cfg, steps, i, m);
      LostAckCounts(cfg, steps[..n], i, m);
    }
  }

  /** A request that is not acked yet has no response, and an acked one exactly one, if and only if no ack call
      got lost and no disconnect came between the delivery and the ack of a successful turn. */
  lemma ExtraResponseHasCause(cfg: Config, desk: Desk, parts: nat -> RR.Parts, steps: seq<Step>, m: Msg)
    requires AnsweringRun(cfg, desk, parts, steps) && PlainCarriers(parts)
    ensures |Responses(cfg, desk, parts, steps, m)| == (if m in Exec(cfg, steps).acked then 1 else 0)
            <==> forall i :: !AckLostAt(cfg, steps, i, m)
  {
    AckedIsAnswered(cfg, desk, parts, steps, m);
    if LostAcks(cfg, steps, m) > 0 {
      var i := LostAckHasCause(cfg, steps, m);
    }
    if i: nat :| AckLostAt(cfg, steps, i, m) {
      LostAckCounts(cfg, steps, i, m);
    }
  }

  /** m is the only message, ready again after k deliveries. */
  ghost predicate ReadyAgain(s: State, m: Msg, k: nat) {
    && s.ready == [m] && s.unacked == map[] && s.acked == {} && s.taken == |s.deliveries| == k && !s.busy
  }

  lemma Extend(cfg: Config, desk: Desk, parts: nat -> RR.Parts, steps: seq<Step>, st: Step, m: Msg)
    returns (more: seq<Step>)
    requires AnsweringRun(cfg, desk, parts, steps) && Enabled(Exec(cfg, steps), st)
    requires st.Settle? ==> SettlesMsg(Exec(cfg, steps), st, m) && st.h == HandlingOf(desk, parts(|steps|), m)
    ensures more == steps + [st] && AnsweringRun(cfg, desk, parts, more)
    ensures Exec(cfg, more) == Apply(cfg, Exec(cfg, steps), st)
    ensures Successes(cfg, more, m) == Successes(cfg, steps, m) + if st.Settle? && st.h == Ran(None) then 1 else 0
  {
    more := steps + [st];
    assert more[..|more|-1] == steps;
  }

  /** One more delivery of m, handled successfully, its ack lost and the connection cut. */
  lemma RoundStates(cfg: Config, s: State, m: Msg, k: nat)
    requires ReadyAgain(s, m, k)
    ensures
      && Enabled(s, Deliver)
      && var s1 := Apply(cfg, s, Deliver);
      Enabled(s1, Take)
      && var s2 := Apply(cfg, s1, Take);
      Enabled(s2, Settle(Ran(None), false, 0)) && SettlesMsg(s2, Settle(Ran(None), false, 0), m)
      && var s3 := Apply(cfg, s2, Settle(Ran(None), false, 0));
      Enabled(s3, Disconnect([m])) && ReadyAgain(Apply(cfg, s3, Disconnect([m])), m, k + 1)
  {
    var s1 := Apply(cfg, s, Deliver);
    assert s1.unacked == map[k := m];
    assert s1.unacked[k] == m && s1.unacked.Values == {m};
  }

  lemma OneRound(cfg: Config, desk: Desk, parts: nat -> RR.Parts, steps: seq<Step>, m: Msg, k: nat)
    returns (more: seq<Step>)
    requires AnsweringRun(cfg, desk, parts, steps) && ReadyAgain(Exec(cfg, steps), m, k)
    requires forall i :: HandlingOf(desk, parts(i), m) == Ran(None)
    ensures AnsweringRun(cfg, desk, parts, more) && ReadyAgain(Exec(cfg, more), m, k + 1)
    ensures Successes(cfg, more, m) == Successes(cfg, steps, m) + 1
  {
    RoundStates(cfg, Exec(cfg, steps), m, k);
    more := Extend(cfg, desk, parts, steps, Deliver, m);
    more := Extend(cfg, desk, parts, more, Take, m);
    more := Extend(cfg, desk, parts, more, Settle(Ran(None), false, 0), m);
    more := Extend(cfg, desk, parts, more, Disconnect([m]), m);
  }

  /** There is no upper bound: if handling m always succeeds, it can be answered any number of times before it
      is acked. */
  lemma {:induction false} AnyNumberOfResponses(cfg: Config, desk: Desk, parts: nat -> RR.Parts, m: Msg, k: nat)
    returns (steps: seq<Step>)
    requires PlainCarriers(parts) && forall i :: HandlingOf(desk, parts(i), m) == Ran(None)
    ensures AnsweringRun(cfg, desk, parts, steps) && ReadyAgain(Exec(cfg, steps), m, k)
    ensures |Responses(cfg, desk, parts, steps, m)| == k
  {
    if k == 0 {
      steps := Extend(cfg, desk, parts, [], Publish(m), m);
    } else {
      steps := AnyNumberOfResponses(cfg, desk, parts, m, k - 1);
      OneResponsePerSuccess(cfg, desk, parts, steps, m);
      steps := OneRound(cfg, desk, parts, steps, m, k - 1);
    }
    OneResponsePerSuccess(cfg, desk, parts, steps, m);
  }
}
