/** Publisher confirms: any number of concurrent Publish and PublishRaw calls share one mutex, one
    AMQP channel and one confirmation channel. A run is a sequence of steps, so a statement about
    every valid run is a statement about every interleaving. */
module ConfirmProtocol {
  import opened Basics

  /** Identity of one invocation of Publish or PublishRaw. */
  type Call = nat

  datatype Entry = Publish | PublishRaw

  datatype Reason =
    | BadHeader | MarshalFailed   // Publish only
    | NotInitialized              // PublishRaw only
    | SendFailed
    | Nacked                      // `!confirm.Ack`, also for the zero value of a closed channel
    | Cancelled                   // ctx.Done() won the select

  datatype Outcome = Nil | Failed(reason: Reason)

  datatype Phase =
    | Blocked(entry: Entry)       // in mu.Lock()
    | Holding(entry: Entry)       // lock held, nothing sent yet
    | Waiting(tag: nat)           // sent with this delivery tag, in the select
    | Returning(result: Outcome)  // result known, deferred Unlock pending
    | Done(result: Outcome)

  /** capacity: buffer of confirmCh (1 unless WithConfirm supplied a channel);
      confirms: confirmCh != nil. */
  datatype Config = Config(capacity: nat, confirms: bool)

  datatype State = State(
    phase: map<Call, Phase>,
    mutex: Option<Call>,
    locks: seq<Call>,          // lock acquisitions, oldest first
    wire: seq<Call>,           // wire[i] sent the message with delivery tag i + 1
    verdicts: map<nat, bool>,  // what the broker decided, per tag
    arrived: nat,              // confirmations put into confirmCh, in tag order from tag 1
    read: nat,                 // confirmations taken out of it
    closed: bool,              // confirmCh closed by the channel's shutdown
    zeroReads: nat             // receives that yielded the zero value of the closed channel
  )

  const INIT := State(map[], None, [], [], map[], 0, 0, false, 0)

  datatype Step =
    | Arrive(c: Call, entry: Entry)   // the call reaches mu.Lock()
    | Lock(c: Call)
    | GiveUp(c: Call, why: Reason)    // header, marshalling, initialisation or send error
    | Send(c: Call)                   // PublishWithContext succeeds
    | Receive(c: Call)                // the select receives the next confirmation
    | ReceiveClosed(c: Call)          // the select receives from the closed, drained channel
    | Cancel(c: Call)                 // the select takes ctx.Done()
    | Unlock(c: Call)
    | Decide(tag: nat, ack: bool)     // the broker acks or nacks, in any order of tags
    | Push                            // the client library hands over the next confirmation
    | Close                           // channel shutdown

  predicate At(s: State, c: Call, p: Phase) { c in s.phase && s.phase[c] == p }

  predicate CanGiveUp(e: Entry, why: Reason) {
    match why
    case BadHeader => e.Publish?
    case MarshalFailed => e.Publish?
    case NotInitialized => e.PublishRaw?
    case SendFailed => true
    case Nacked => false
    case Cancelled => false
  }

  /** With an unbuffered channel a confirmation passes directly from the library to the receiver. */
  predicate HandOver(cfg: Config, s: State) {
    cfg.capacity == 0 && !s.closed && s.read == s.arrived && s.arrived + 1 in s.verdicts
  }

  predicate Enabled(cfg: Config, s: State, st: Step) {
    match st
    case Arrive(c, e) => c !in s.phase
    case Lock(c) => c in s.phase && s.phase[c].Blocked? && s.mutex.None?
    case GiveUp(c, why) => c in s.phase && s.phase[c].Holding? && CanGiveUp(s.phase[c].entry, why)
    case Send(c) => c in s.phase && s.phase[c].Holding?
    case Receive(c) => c in s.phase && s.phase[c].Waiting? && (s.read < s.arrived || HandOver(cfg, s))
                       && s.read + 1 in s.verdicts
    case ReceiveClosed(c) => c in s.phase && s.phase[c].Waiting? && s.closed && s.read == s.arrived
    case Cancel(c) => c in s.phase && s.phase[c].Waiting?
    case Unlock(c) => c in s.phase && s.phase[c].Returning?
    case Decide(t, ack) => cfg.confirms && 1 <= t <= |s.wire| && t !in s.verdicts
    case Push => !s.closed && s.arrived - s.read < cfg.capacity && s.arrived + 1 in s.verdicts
    case Close => !s.closed
  }

  function SetPhase(s: State, c: Call, p: Phase): State { s.(phase := s.phase[c := p]) }

  function Apply(cfg: Config, s: State, st: Step): State
    requires Enabled(cfg, s, st)
  {
    match st
    case Arrive(c, e) => SetPhase(s, c, Blocked(e))
    case Lock(c) => SetPhase(s, c, Holding(s.phase[c].entry)).(mutex := Some(c), locks := s.locks + [c])
    case GiveUp(c, why) => SetPhase(s, c, Returning(Failed(why)))
    case Send(c) =>
      SetPhase(s, c, if cfg.confirms then Waiting(|s.wire| + 1) else Returning(Nil)).(wire := s.wire + [c])
    case Receive(c) =>
      var ack := s.verdicts[s.read + 1];
      SetPhase(s, c, Returning(if ack then Nil else Failed(Nacked)))
      .(read := s.read + 1, arrived := if s.read < s.arrived then s.arrived else s.read + 1)
    case ReceiveClosed(c) => SetPhase(s, c, Returning(Failed(Nacked))).(zeroReads := s.zeroReads + 1)
    case Cancel(c) => SetPhase(s, c, Returning(Failed(Cancelled)))
    case Unlock(c) => SetPhase(s, c, Done(s.phase[c].result)).(mutex := None)
    case Decide(t, ack) => s.(verdicts := s.verdicts[t := ack])
    case Push => s.(arrived := s.arrived + 1)
    case Close => s.(closed := true)
  }

  /** A sequence of steps each of which is enabled where it is taken. */
  ghost predicate Run(cfg: Config, steps: seq<Step>)
    decreases |steps|, 0
  {
    steps == [] ||
    (Run(cfg, steps[..|steps|-1]) && Enabled(cfg, Exec(cfg, steps[..|steps|-1]), steps[|steps|-1]))
  }

  ghost function Exec(cfg: Config, steps: seq<Step>): State
    requires Run(cfg, steps)
    decreases |steps|, 1
  {
    if steps == [] then INIT
    else Apply(cfg, Exec(cfg, steps[..|steps|-1]), steps[|steps|-1])
  }

  // ---------------------------------------------------------------------------------------------
  // What the laws talk about
  // ---------------------------------------------------------------------------------------------

  predicate Inside(p: Phase) { p.Holding? || p.Waiting? || p.Returning? }

  predicate Finished(s: State, c: Call) { c in s.phase && (s.phase[c].Returning? || s.phase[c].Done?) }

  function ResultOf(s: State, c: Call): Outcome
    requires Finished(s, c)
  {
    s.phase[c].result
  }

  predicate WasCancelled(phase: map<Call, Phase>, c: Call) {
    c in phase && (phase[c].Returning? || phase[c].Done?) && phase[c].result == Failed(Cancelled)
  }

  /** Among the calls that sent, those whose wait was abandoned: the lag they leave behind. */
  function Lag(phase: map<Call, Phase>, calls: seq<Call>): nat {
    if calls == [] then 0
    else Lag(phase, calls[..|calls|-1]) + if WasCancelled(phase, calls[|calls|-1]) then 1 else 0
  }

  function Waiters(s: State): nat {
    if s.mutex.Some? && s.mutex.value in s.phase && s.phase[s.mutex.value].Waiting? then 1 else 0
  }

  /** The calls of `calls` that belong to `chosen`, in the same order. */
  function Restrict(calls: seq<Call>, chosen: set<Call>): seq<Call> {
    if calls == [] then []
    else Restrict(calls[..|calls|-1], chosen)
         + if calls[|calls|-1] in chosen then [calls[|calls|-1]] else []
  }

  ghost predicate Distinct(calls: seq<Call>) {
    forall i, j :: 0 <= i < j < |calls| ==> calls[i] != calls[j]
  }

  // ---------------------------------------------------------------------------------------------
  // The invariant
  // ---------------------------------------------------------------------------------------------

  /** Exactly the holder of the mutex is between Lock and Unlock, and it locked last. */
  ghost predicate HolderInv(s: State) {
    && (forall c :: c in s.phase && Inside(s.phase[c]) <==> s.mutex == Some(c))
    && (s.mutex.Some? ==> s.locks != [] && s.locks[|s.locks|-1] == s.mutex.value)
  }

  /** Each call locks and sends at most once, and only in that order. */
  ghost predicate HistoryInv(s: State) {
    && (forall c :: c in s.locks ==> c in s.phase && !s.phase[c].Blocked?)
    && (forall c :: c in s.wire ==> c in s.phase && !s.phase[c].Blocked? && !s.phase[c].Holding?)
    && Distinct(s.locks) && Distinct(s.wire)
  }

  ghost predicate MutexInv(s: State) { HolderInv(s) && HistoryInv(s) }

  ghost function Senders(s: State): set<Call> { set c | c in s.wire }

  /** The wire order is the order in which the senders acquired the lock. */
  ghost predicate WireInv(s: State) {
    s.wire == Restrict(s.locks, Senders(s))
  }

  ghost predicate QueueInv(cfg: Config, s: State) {
    && s.read <= s.arrived <= s.read + cfg.capacity
    && (forall t :: 1 <= t <= s.arrived ==> t in s.verdicts)
    && (forall t :: t in s.verdicts ==> 1 <= t <= |s.wire|)
    && (s.zeroReads > 0 ==> s.closed && s.read == s.arrived)
  }

  /** The accounting equation, for a publisher with confirms. */
  ghost predicate AccountInv(cfg: Config, s: State) {
    cfg.confirms ==>
      && |s.wire| == s.read + s.zeroReads + Lag(s.phase, s.wire) + Waiters(s)
      && (forall c :: c in s.phase && s.phase[c].Waiting? ==>
            s.wire != [] && s.wire[|s.wire|-1] == c && s.phase[c].tag == |s.wire|)
  }

  /** The call at wire position i, if it returned nil, consumed a true verdict `Lag` tags earlier. */
  ghost predicate NilBacked(s: State, i: nat)
    requires i < |s.wire|
  {
    Finished(s, s.wire[i]) && ResultOf(s, s.wire[i]).Nil? ==>
      var t := i + 1 - Lag(s.phase, s.wire[..i]);
      t in s.verdicts && s.verdicts[t]
  }

  /** With confirms, only calls that sent return nil. */
  ghost predicate NilSent(cfg: Config, s: State) {
    && (cfg.confirms ==> forall c :: Finished(s, c) && ResultOf(s, c).Nil? ==> c in s.wire)
    && (forall c :: c in s.phase && s.phase[c].Waiting? ==> cfg.confirms)
  }

  /** Every call that returned nil consumed the ack of the message `Lag` places before its own. */
  ghost predicate ResultInv(cfg: Config, s: State) {
    NilSent(cfg, s) && (cfg.confirms ==> forall i: nat :: i < |s.wire| ==> NilBacked(s, i))
  }

  ghost predicate Inv(cfg: Config, s: State) {
    MutexInv(s) && WireInv(s) && QueueInv(cfg, s) && AccountInv(cfg, s) && ResultInv(cfg, s)
  }

  /** Lag looks only at the phases of the calls it counts. */
  lemma {:induction false} LagFrame(p: map<Call, Phase>, q: map<Call, Phase>, calls: seq<Call>)
    requires forall c :: c in calls ==> (WasCancelled(p, c) <==> WasCancelled(q, c))
    ensures Lag(p, calls) == Lag(q, calls)
  {
    if calls != [] {
      LagFrame(p, q, calls[..|calls|-1]);
    }
  }

  lemma {:induction false} RestrictFrame(calls: seq<Call>, a: set<Call>, b: set<Call>)
    requires forall c :: c in calls ==> (c in a <==> c in b)
    ensures Restrict(calls, a) == Restrict(calls, b)
  {
    if calls != [] {
      RestrictFrame(calls[..|calls|-1], a, b);
    }
  }

  lemma RestrictAppend(calls: seq<Call>, c: Call, chosen: set<Call>)
    ensures Restrict(calls + [c], chosen) == Restrict(calls, chosen) + if c in chosen then [c] else []
  {
    assert (calls + [c])[..|calls|] == calls;
  }

  lemma LagAppend(phase: map<Call, Phase>, calls: seq<Call>, c: Call)
    ensures Lag(phase, calls + [c]) == Lag(phase, calls) + if WasCancelled(phase, c) then 1 else 0
  {
    assert (calls + [c])[..|calls|] == calls;
  }

  lemma HolderStep(cfg: Config, s: State, st: Step)
    requires HolderInv(s) && Enabled(cfg, s, st)
    ensures HolderInv(Apply(cfg, s, st))
  {
  }

  /** A step changes the phase of its own call only, and that only forward. */
  lemma PhaseStep(cfg: Config, s: State, st: Step, c: Call)
    requires Enabled(cfg, s, st) && c in s.phase
    ensures
      var p, p' := s.phase[c], Apply(cfg, s, st).phase;
      && c in p' && (!p.Blocked? ==> !p'[c].Blocked?) && (!p.Blocked? && !p.Holding? ==> !p'[c].Holding?)
  {
  }

  lemma DistinctAppend(calls: seq<Call>, c: Call)
    requires Distinct(calls) && c !in calls
    ensures Distinct(calls + [c])
  {
  }

  lemma HistoryLock(cfg: Config, s: State, c: Call)
    requires HistoryInv(s) && Enabled(cfg, s, Lock(c))
    ensures HistoryInv(Apply(cfg, s, Lock(c)))
  {
    DistinctAppend(s.locks, c);
  }

  lemma HistorySend(cfg: Config, s: State, c: Call)
    requires HistoryInv(s) && Enabled(cfg, s, Send(c))
    ensures HistoryInv(Apply(cfg, s, Send(c)))
  {
    DistinctAppend(s.wire, c);
  }

  lemma HistoryOther(cfg: Config, s: State, st: Step)
    requires HistoryInv(s) && Enabled(cfg, s, st) && !st.Lock? && !st.Send?
    ensures HistoryInv(Apply(cfg, s, st))
  {
    var s' := Apply(cfg, s, st);
    assert s'.locks == s.locks && s'.wire == s.wire;
    forall c | c in s.locks || c in s.wire
      ensures c in s'.phase && !s'.phase[c].Blocked? && (c in s.wire ==> !s'.phase[c].Holding?)
    {
      PhaseStep(cfg, s, st, c);
    }
  }

  lemma HistoryStep(cfg: Config, s: State, st: Step)
    requires HistoryInv(s) && Enabled(cfg, s, st)
    ensures HistoryInv(Apply(cfg, s, st))
  {
    match st
    case Lock(c) => HistoryLock(cfg, s, c);
    case Send(c) => HistorySend(cfg, s, c);
    case _ => HistoryOther(cfg, s, st);
  }

  lemma WireLock(cfg: Config, s: State, c: Call)
    requires HistoryInv(s) && WireInv(s) && Enabled(cfg, s, Lock(c))
    ensures WireInv(Apply(cfg, s, Lock(c)))
  {
    assert c !in s.wire;
    RestrictAppend(s.locks, c, Senders(s));
  }

  lemma LastIsNew(calls: seq<Call>)
    requires calls != [] && Distinct(calls)
    ensures calls == calls[..|calls|-1] + [calls[|calls|-1]]
    ensures calls[|calls|-1] !in calls[..|calls|-1]
  {
  }

  lemma RestrictGrows(earlier: seq<Call>, c: Call, sent: set<Call>)
    requires c !in earlier && c !in sent
    ensures Restrict(earlier + [c], sent + {c}) == Restrict(earlier + [c], sent) + [c]
  {
    RestrictAppend(earlier, c, sent);
    RestrictAppend(earlier, c, sent + {c});
    RestrictFrame(earlier, sent, sent + {c});
  }

  lemma WireSend(cfg: Config, s: State, c: Call)
    requires MutexInv(s) && WireInv(s) && Enabled(cfg, s, Send(c))
    ensures WireInv(Apply(cfg, s, Send(c)))
  {
    assert s.mutex == Some(c) && c !in s.wire;
    LastIsNew(s.locks);
    RestrictGrows(s.locks[..|s.locks|-1], c, Senders(s));
    assert Senders(Apply(cfg, s, Send(c))) == Senders(s) + {c};
  }

  lemma WireStep(cfg: Config, s: State, st: Step)
    requires MutexInv(s) && WireInv(s) && Enabled(cfg, s, st)
    ensures WireInv(Apply(cfg, s, st))
  {
    match st
    case Lock(c) => WireLock(cfg, s, c);
    case Send(c) => WireSend(cfg, s, c);
    case _ => assert Apply(cfg, s, st).wire == s.wire && Apply(cfg, s, st).locks == s.locks;
  }

  lemma QueueStep(cfg: Config, s: State, st: Step)
    requires QueueInv(cfg, s) && Enabled(cfg, s, st)
    ensures QueueInv(cfg, Apply(cfg, s, st))
  {
  }

  /** Only Cancel changes whether a call counts as cancelled. */
  lemma CancelledStep(cfg: Config, s: State, st: Step, c: Call)
    requires Enabled(cfg, s, st) && st != Cancel(c)
    ensures WasCancelled(s.phase, c) <==> WasCancelled(Apply(cfg, s, st).phase, c)
  {
  }

  /** A prefix of the wire that the step's own call is not part of keeps its lag. */
  lemma LagStep(cfg: Config, s: State, st: Step, calls: seq<Call>)
    requires Enabled(cfg, s, st) && (st.Cancel? ==> st.c !in calls)
    ensures Lag(Apply(cfg, s, st).phase, calls) == Lag(s.phase, calls)
  {
    forall c | c in calls
      ensures WasCancelled(s.phase, c) <==> WasCancelled(Apply(cfg, s, st).phase, c)
    {
      CancelledStep(cfg, s, st, c);
    }
    LagFrame(s.phase, Apply(cfg, s, st).phase, calls);
  }

  /** While a call waits, the confirmation it would receive next is the one `Lag` tags before its
      own. */
  lemma NextConfirmation(cfg: Config, s: State, c: Call)
    requires MutexInv(s) && AccountInv(cfg, s) && cfg.confirms
    requires c in s.phase && s.phase[c].Waiting?
    ensures s.mutex == Some(c) && s.wire != [] && s.wire == s.wire[..|s.wire|-1] + [c]
    ensures s.phase[c].tag == |s.wire|
    ensures Lag(s.phase, s.wire) == Lag(s.phase, s.wire[..|s.wire|-1])
    ensures s.read + s.zeroReads + 1 == |s.wire| - Lag(s.phase, s.wire[..|s.wire|-1])
  {
    LagAppend(s.phase, s.wire[..|s.wire|-1], c);
  }

  lemma CancelLag(cfg: Config, s: State, c: Call)
    requires Enabled(cfg, s, Cancel(c)) && s.wire != [] && s.wire[|s.wire|-1] == c && Distinct(s.wire)
    ensures Lag(Apply(cfg, s, Cancel(c)).phase, s.wire) == Lag(s.phase, s.wire) + 1
  {
    LastIsNew(s.wire);
    LagStep(cfg, s, Cancel(c), s.wire[..|s.wire|-1]);
  }

  lemma AccountCancel(cfg: Config, s: State, c: Call)
    requires MutexInv(s) && AccountInv(cfg, s) && cfg.confirms && Enabled(cfg, s, Cancel(c))
    ensures AccountInv(cfg, Apply(cfg, s, Cancel(c)))
  {
    assert s.mutex == Some(c);
    CancelLag(cfg, s, c);
  }

  lemma AccountSend(cfg: Config, s: State, c: Call)
    requires MutexInv(s) && AccountInv(cfg, s) && cfg.confirms && Enabled(cfg, s, Send(c))
    ensures AccountInv(cfg, Apply(cfg, s, Send(c)))
  {
    LagStep(cfg, s, Send(c), s.wire);
    LagAppend(Apply(cfg, s, Send(c)).phase, s.wire, c);
  }

  /** Reading leaves nobody waiting. */
  lemma ReadEndsWait(cfg: Config, s: State, st: Step)
    requires HolderInv(s) && Enabled(cfg, s, st) && (st.Receive? || st.ReceiveClosed?)
    ensures s.mutex == Some(st.c) && Waiters(s) == 1 && Waiters(Apply(cfg, s, st)) == 0
    ensures forall c :: c in Apply(cfg, s, st).phase ==> !Apply(cfg, s, st).phase[c].Waiting?
  {
    forall c | c in s.phase && s.phase[c].Waiting?
      ensures c == st.c
    {
      assert Inside(s.phase[c]) && Inside(s.phase[st.c]);
    }
  }

  lemma AccountRead(cfg: Config, s: State, st: Step)
    requires MutexInv(s) && AccountInv(cfg, s) && cfg.confirms && Enabled(cfg, s, st)
    requires st.Receive? || st.ReceiveClosed?
    ensures AccountInv(cfg, Apply(cfg, s, st))
  {
    ReadEndsWait(cfg, s, st);
    LagStep(cfg, s, st, s.wire);
  }

  /** Other steps neither begin nor end a wait. */
  lemma OthersKeepWaits(cfg: Config, s: State, st: Step, c: Call)
    requires Enabled(cfg, s, st) && !st.Cancel? && !st.Send? && !st.Receive? && !st.ReceiveClosed?
    ensures
      var s' := Apply(cfg, s, st);
      c in s'.phase && s'.phase[c].Waiting? <==> c in s.phase && s.phase[c].Waiting?
    ensures c in s.phase && s.phase[c].Waiting? ==> Apply(cfg, s, st).phase[c] == s.phase[c]
  {
  }

  lemma OthersKeepWaiters(cfg: Config, s: State, st: Step)
    requires HolderInv(s) && Enabled(cfg, s, st) && !st.Cancel? && !st.Send? && !st.Receive? && !st.ReceiveClosed?
    ensures Waiters(Apply(cfg, s, st)) == Waiters(s)
  {
    if st.Lock? {
      OthersKeepWaits(cfg, s, st, st.c);
    } else if s.mutex.Some? {
      OthersKeepWaits(cfg, s, st, s.mutex.value);
    }
  }

  lemma AccountOther(cfg: Config, s: State, st: Step)
    requires MutexInv(s) && AccountInv(cfg, s) && cfg.confirms && Enabled(cfg, s, st)
    requires !st.Cancel? && !st.Send? && !st.Receive? && !st.ReceiveClosed?
    ensures AccountInv(cfg, Apply(cfg, s, st))
  {
    LagStep(cfg, s, st, s.wire);
    OthersKeepWaiters(cfg, s, st);
    var s' := Apply(cfg, s, st);
    forall c | c in s'.phase && s'.phase[c].Waiting?
      ensures s'.wire != [] && s'.wire[|s'.wire|-1] == c && s'.phase[c].tag == |s'.wire|
    {
      OthersKeepWaits(cfg, s, st, c);
    }
  }

  lemma AccountStep(cfg: Config, s: State, st: Step)
    requires MutexInv(s) && AccountInv(cfg, s) && Enabled(cfg, s, st)
    ensures AccountInv(cfg, Apply(cfg, s, st))
  {
    if cfg.confirms {
      match st
      case Cancel(c) => AccountCancel(cfg, s, c);
      case Send(c) => AccountSend(cfg, s, c);
      case Receive(_) => AccountRead(cfg, s, st);
      case ReceiveClosed(_) => AccountRead(cfg, s, st);
      case _ => AccountOther(cfg, s, st);
    }
  }

  lemma ReceiveBacks(cfg: Config, s: State, c: Call)
    requires Enabled(cfg, s, Receive(c)) && s.wire != [] && s.wire[|s.wire|-1] == c
    requires s.read + 1 == |s.wire| - Lag(s.phase, s.wire[..|s.wire|-1])
    ensures NilBacked(Apply(cfg, s, Receive(c)), |s.wire| - 1)
  {
    LagStep(cfg, s, Receive(c), s.wire[..|s.wire|-1]);
  }

  lemma NilBackedReceive(cfg: Config, s: State, c: Call)
    requires MutexInv(s) && QueueInv(cfg, s) && AccountInv(cfg, s) && cfg.confirms
    requires Enabled(cfg, s, Receive(c))
    ensures s.wire != [] && NilBacked(Apply(cfg, s, Receive(c)), |s.wire| - 1)
  {
    NextConfirmation(cfg, s, c);
    assert s.zeroReads == 0;
    ReceiveBacks(cfg, s, c);
  }

  /** With confirms, nil is only ever produced by receiving a confirmation. */
  lemma NilOnlyByReceive(cfg: Config, s: State, st: Step, c: Call)
    requires cfg.confirms && Enabled(cfg, s, st) && st != Receive(c)
    requires Finished(Apply(cfg, s, st), c) && ResultOf(Apply(cfg, s, st), c).Nil?
    ensures Finished(s, c) && ResultOf(s, c).Nil?
  {
  }

  /** Sent messages and broker verdicts are never taken back. */
  lemma HistoryGrows(cfg: Config, s: State, st: Step, i: nat, t: nat)
    requires Enabled(cfg, s, st) && i < |s.wire|
    ensures i < |Apply(cfg, s, st).wire|
    ensures Apply(cfg, s, st).wire[i] == s.wire[i] && Apply(cfg, s, st).wire[..i] == s.wire[..i]
    ensures t in s.verdicts ==> t in Apply(cfg, s, st).verdicts
                                && Apply(cfg, s, st).verdicts[t] == s.verdicts[t]
  {
  }

  lemma NilBackedFrame(cfg: Config, s: State, st: Step, i: nat)
    requires MutexInv(s) && AccountInv(cfg, s) && cfg.confirms && Enabled(cfg, s, st)
    requires i < |s.wire| && NilBacked(s, i)
    requires st != Receive(s.wire[i])
    ensures i < |Apply(cfg, s, st).wire| && NilBacked(Apply(cfg, s, st), i)
  {
    var s', c := Apply(cfg, s, st), s.wire[i];
    HistoryGrows(cfg, s, st, i, 0);
    if Finished(s', c) && ResultOf(s', c).Nil? {
      NilOnlyByReceive(cfg, s, st, c);
      var t := i + 1 - Lag(s.phase, s.wire[..i]);
      HistoryGrows(cfg, s, st, i, t);
      CancelIsLast(cfg, s, st, i);
      LagStep(cfg, s, st, s.wire[..i]);
    }
  }

  /** Only the call that sent last can be waiting. */
  lemma CancelIsLast(cfg: Config, s: State, st: Step, i: nat)
    requires MutexInv(s) && AccountInv(cfg, s) && cfg.confirms && Enabled(cfg, s, st) && i < |s.wire|
    ensures st.Cancel? ==> st.c !in s.wire[..i]
  {
    if st.Cancel? {
      NextConfirmation(cfg, s, st.c);
    }
  }

  lemma NilBackedStep(cfg: Config, s: State, st: Step, i: nat)
    requires MutexInv(s) && QueueInv(cfg, s) && AccountInv(cfg, s) && cfg.confirms && Enabled(cfg, s, st)
    requires i < |s.wire| ==> NilBacked(s, i)
    requires i < |Apply(cfg, s, st).wire|
    ensures NilBacked(Apply(cfg, s, st), i)
  {
    if i < |s.wire| {
      if st.Receive? && st.c == s.wire[i] {
        NextConfirmation(cfg, s, st.c);
        assert i == |s.wire| - 1;
        NilBackedReceive(cfg, s, st.c);
      } else {
        NilBackedFrame(cfg, s, st, i);
      }
    }
  }

  /** Only these steps produce a nil result or a waiting call. */
  lemma NilSentFrame(cfg: Config, s: State, st: Step)
    requires NilSent(cfg, s) && Enabled(cfg, s, st) && !st.Send? && !st.Receive?
    ensures NilSent(cfg, Apply(cfg, s, st))
  {
    var s' := Apply(cfg, s, st);
    assert s'.wire == s.wire;
    forall c | c in s'.phase
      ensures s'.phase[c].Waiting? ==> c in s.phase && s.phase[c].Waiting?
      ensures Finished(s', c) && ResultOf(s', c).Nil? ==> Finished(s, c) && ResultOf(s, c).Nil?
    {
    }
  }

  lemma NilSentSend(cfg: Config, s: State, c: Call)
    requires NilSent(cfg, s) && Enabled(cfg, s, Send(c))
    ensures NilSent(cfg, Apply(cfg, s, Send(c)))
  {
  }

  lemma NilSentReceive(cfg: Config, s: State, c: Call)
    requires NilSent(cfg, s) && Enabled(cfg, s, Receive(c)) && (cfg.confirms ==> c in s.wire)
    ensures NilSent(cfg, Apply(cfg, s, Receive(c)))
  {
  }

  lemma NilSentStep(cfg: Config, s: State, st: Step)
    requires MutexInv(s) && AccountInv(cfg, s) && NilSent(cfg, s) && Enabled(cfg, s, st)
    ensures NilSent(cfg, Apply(cfg, s, st))
  {
    match st
    case Send(c) => NilSentSend(cfg, s, c);
    case Receive(c) =>
      if cfg.confirms {
        NextConfirmation(cfg, s, c);
      }
      NilSentReceive(cfg, s, c);
    case _ => NilSentFrame(cfg, s, st);
  }

  lemma StepKeepsInv(cfg: Config, s: State, st: Step)
    requires Inv(cfg, s) && Enabled(cfg, s, st)
    ensures Inv(cfg, Apply(cfg, s, st))
  {
    HolderStep(cfg, s, st);
    HistoryStep(cfg, s, st);
    WireStep(cfg, s, st);
    QueueStep(cfg, s, st);
    AccountStep(cfg, s, st);
    NilSentStep(cfg, s, st);
    if cfg.confirms {
      forall i: nat | i < |Apply(cfg, s, st).wire|
        ensures NilBacked(Apply(cfg, s, st), i)
      {
        NilBackedStep(cfg, s, st, i);
      }
    }
  }

  /** The invariant holds after every run. */
  lemma {:induction false} RunKeepsInv(cfg: Config, steps: seq<Step>)
    requires Run(cfg, steps)
    ensures Inv(cfg, Exec(cfg, steps))
  {
    if steps != [] {
      RunKeepsInv(cfg, steps[..|steps|-1]);
      StepKeepsInv(cfg, Exec(cfg, steps[..|steps|-1]), steps[|steps|-1]);
    }
  }

  // ---------------------------------------------------------------------------------------------
  // The laws
  // ---------------------------------------------------------------------------------------------

  /** The calls that took the lock, sent, and what the steps of a run say happened. */
  function LockedBy(steps: seq<Step>): seq<Call> {
    if steps == [] then []
    else LockedBy(steps[..|steps|-1]) + if steps[|steps|-1].Lock? then [steps[|steps|-1].c] else []
  }

  function SentBy(steps: seq<Step>): seq<Call> {
    if steps == [] then []
    else SentBy(steps[..|steps|-1]) + if steps[|steps|-1].Send? then [steps[|steps|-1].c] else []
  }

  function Receives(steps: seq<Step>): nat {
    if steps == [] then 0
    else Receives(steps[..|steps|-1]) + if steps[|steps|-1].Receive? then 1 else 0
  }

  /** The broker's decisions are those the run took, one per tag. */
  ghost predicate DecisionsAre(verdicts: map<nat, bool>, steps: seq<Step>) {
    forall t: nat, ack: bool :: t in verdicts && verdicts[t] == ack <==> Decide(t, ack) in steps
  }

  ghost predicate CancelsAre(phase: map<Call, Phase>, steps: seq<Step>) {
    forall c: Call :: WasCancelled(phase, c) <==> Cancel(c) in steps
  }

  lemma LastStep(steps: seq<Step>, st: Step)
    requires steps != []
    ensures st in steps <==> st in steps[..|steps|-1] || st == steps[|steps|-1]
  {
    assert steps == steps[..|steps|-1] + [steps[|steps|-1]];
  }

  lemma DecisionsNext(cfg: Config, s: State, steps: seq<Step>)
    requires steps != [] && Enabled(cfg, s, steps[|steps|-1]) && DecisionsAre(s.verdicts, steps[..|steps|-1])
    ensures DecisionsAre(Apply(cfg, s, steps[|steps|-1]).verdicts, steps)
  {
    var st := steps[|steps|-1];
    var s' := Apply(cfg, s, st);
    forall t: nat, ack: bool
      ensures t in s'.verdicts && s'.verdicts[t] == ack <==> Decide(t, ack) in steps
    {
      LastStep(steps, Decide(t, ack));
      assert t in s.verdicts && s.verdicts[t] == ack <==> Decide(t, ack) in steps[..|steps|-1];
    }
  }

  lemma CancelsNext(cfg: Config, s: State, steps: seq<Step>)
    requires steps != [] && Enabled(cfg, s, steps[|steps|-1]) && CancelsAre(s.phase, steps[..|steps|-1])
    ensures CancelsAre(Apply(cfg, s, steps[|steps|-1]).phase, steps)
  {
    forall c: Call
      ensures WasCancelled(Apply(cfg, s, steps[|steps|-1]).phase, c) <==> Cancel(c) in steps
    {
      LastStep(steps, Cancel(c));
      if steps[|steps|-1] != Cancel(c) {
        CancelledStep(cfg, s, steps[|steps|-1], c);
      }
    }
  }

  /** The state says what the steps did: who locked and who sent, in which order, how many confirmations were
      received, which waits were abandoned, and what the broker decided. */
  lemma {:induction false} StateIsHistory(cfg: Config, steps: seq<Step>)
    requires Run(cfg, steps)
    ensures
      var s := Exec(cfg, steps);
      && s.locks == LockedBy(steps) && s.wire == SentBy(steps) && s.read == Receives(steps)
      && DecisionsAre(s.verdicts, steps) && CancelsAre(s.phase, steps)
  {
    if steps != [] {
      var front := steps[..|steps|-1];
      StateIsHistory(cfg, front);
      DecisionsNext(cfg, Exec(cfg, front), steps);
      CancelsNext(cfg, Exec(cfg, front), steps);
    }
  }

  /** The law for one receive: call c, which sent tag n, takes the confirmation for tag
      n - (abandoned waits among the tags before n), and returns nil exactly if that one is an ack. */
  ghost predicate ReceivesWithLag(cfg: Config, s: State, steps: seq<Step>, c: Call) {
    && Enabled(cfg, s, Receive(c))
    && var n, sent := s.phase[c].tag, SentBy(steps);
    && 1 <= n <= |sent| && sent[n-1] == c
    && Receives(steps) + 1 == n - Abandoned(steps, sent[..n-1])
    && var result := if Decide(Receives(steps) + 1, true) in steps then Nil else Failed(Nacked);
    At(Apply(cfg, s, Receive(c)), c, Returning(result))
  }

  /** How many of these calls abandoned their wait. */
  function Abandoned(steps: seq<Step>, calls: seq<Call>): nat {
    if calls == [] then 0
    else Abandoned(steps, calls[..|calls|-1]) + if Cancel(calls[|calls|-1]) in steps then 1 else 0
  }

  lemma {:induction false} LagIsAbandoned(phase: map<Call, Phase>, steps: seq<Step>, calls: seq<Call>)
    requires CancelsAre(phase, steps)
    ensures Lag(phase, calls) == Abandoned(steps, calls)
  {
    if calls != [] {
      LagIsAbandoned(phase, steps, calls[..|calls|-1]);
    }
  }

  /** The call takes the confirmation `Lag` tags before its own, and returns what it says. */
  ghost predicate TakesTag(cfg: Config, s: State, c: Call) {
    && Enabled(cfg, s, Receive(c))
    && var n := s.phase[c].tag;
    && 1 <= n <= |s.wire| && s.wire[n-1] == c && s.read + 1 == n - Lag(s.phase, s.wire[..n-1])
    && At(Apply(cfg, s, Receive(c)), c, Returning(if s.verdicts[s.read + 1] then Nil else Failed(Nacked)))
  }

  lemma ReceiveResult(cfg: Config, s: State, c: Call)
    requires Enabled(cfg, s, Receive(c))
    ensures At(Apply(cfg, s, Receive(c)), c, Returning(if s.verdicts[s.read + 1] then Nil else Failed(Nacked)))
  {
  }

  lemma ReceiveTag(cfg: Config, s: State, c: Call)
    requires MutexInv(s) && QueueInv(cfg, s) && AccountInv(cfg, s) && cfg.confirms
    requires Enabled(cfg, s, Receive(c))
    ensures
      var n := s.phase[c].tag;
      1 <= n <= |s.wire| && s.wire[n-1] == c && s.read + 1 == n - Lag(s.phase, s.wire[..n-1])
  {
    NextConfirmation(cfg, s, c);
    assert s.zeroReads == 0;
  }

  lemma ReceiveLaw(cfg: Config, s: State, c: Call)
    requires MutexInv(s) && QueueInv(cfg, s) && AccountInv(cfg, s) && cfg.confirms
    requires Enabled(cfg, s, Receive(c))
    ensures TakesTag(cfg, s, c)
  {
    ReceiveTag(cfg, s, c);
    ReceiveResult(cfg, s, c);
  }

  lemma ReceiveLawInRuns(cfg: Config, steps: seq<Step>, c: Call)
    requires cfg.confirms && Run(cfg, steps) && Enabled(cfg, Exec(cfg, steps), Receive(c))
    ensures TakesTag(cfg, Exec(cfg, steps), c)
  {
    RunKeepsInv(cfg, steps);
    ReceiveLaw(cfg, Exec(cfg, steps), c);
  }

  lemma ReceiveLawInSteps(cfg: Config, s: State, steps: seq<Step>, c: Call)
    requires TakesTag(cfg, s, c) && s.wire == SentBy(steps) && s.read == Receives(steps)
    requires DecisionsAre(s.verdicts, steps) && CancelsAre(s.phase, steps)
    ensures ReceivesWithLag(cfg, s, steps, c)
  {
    LagIsAbandoned(s.phase, steps, s.wire[..s.phase[c].tag - 1]);
    assert s.read + 1 in s.verdicts && s.verdicts[s.read + 1] == true <==> Decide(s.read + 1, true) in steps;
  }

  /** Lag law. In every interleaving of any number of calls, the call that sent tag n and receives a
      confirmation receives the one for tag n - k, where k counts the earlier senders that abandoned
      their wait, and returns nil exactly if the broker acked that tag. */
  lemma LagLaw(cfg: Config, steps: seq<Step>, c: Call)
    requires cfg.confirms && Run(cfg, steps) && Enabled(cfg, Exec(cfg, steps), Receive(c))
    ensures ReceivesWithLag(cfg, Exec(cfg, steps), steps, c)
  {
    ReceiveLawInRuns(cfg, steps, c);
    StateIsHistory(cfg, steps);
    ReceiveLawInSteps(cfg, Exec(cfg, steps), steps, c);
  }

  /** Accounting. In every reachable state: sent = received + abandoned + waiting; a received zero
      value means the channel is closed and every handed-over confirmation was consumed; at most one
      call is between Lock and Unlock; and the wire order is the order of lock acquisition. */
  lemma Accounting(cfg: Config, steps: seq<Step>)
    requires cfg.confirms && Run(cfg, steps)
    ensures
      var s := Exec(cfg, steps);
      && |SentBy(steps)| - (Receives(steps) + s.zeroReads) == Abandoned(steps, SentBy(steps)) + Waiters(s)
      && (s.zeroReads > 0 ==> s.closed && s.read == s.arrived)
      && (forall c, d :: c in s.phase && d in s.phase && Inside(s.phase[c]) && Inside(s.phase[d]) ==> c == d)
      && Distinct(LockedBy(steps)) && SentBy(steps) == Restrict(LockedBy(steps), Senders(s))
  {
    RunKeepsInv(cfg, steps);
    StateIsHistory(cfg, steps);
    LagIsAbandoned(Exec(cfg, steps).phase, steps, SentBy(steps));
    var s := Exec(cfg, steps);
    forall c, d | c in s.phase && d in s.phase && Inside(s.phase[c]) && Inside(s.phase[d])
      ensures c == d
    {
      assert s.mutex == Some(c) && s.mutex == Some(d);
    }
  }

  /** The call at wire position i finished with nil, and k earlier senders abandoned their wait. */
  ghost predicate NilWithLag(cfg: Config, steps: seq<Step>, i: nat, k: nat) {
    && Run(cfg, steps)
    && var s, sent := Exec(cfg, steps), SentBy(steps);
    && i < |sent| && Finished(s, sent[i]) && ResultOf(s, sent[i]).Nil?
    && Abandoned(steps, sent[..i]) == k
  }

  /** The broker acked the message with tag t. */
  ghost predicate Acked(steps: seq<Step>, t: int) { t >= 0 && Decide(t, true) in steps }

  ghost predicate NackedByBroker(steps: seq<Step>, t: int) { t >= 0 && Decide(t, false) in steps }

  lemma RunBacksNil(cfg: Config, steps: seq<Step>, i: nat)
    requires cfg.confirms && Run(cfg, steps) && i < |Exec(cfg, steps).wire|
    ensures NilBacked(Exec(cfg, steps), i)
  {
    RunKeepsInv(cfg, steps);
  }

  /** What nil does mean, in every run and for every call: the broker acked the message k tags
      before the caller's own. A closed confirmation channel never produces nil. */
  lemma NilMeansLaggedAck(cfg: Config, steps: seq<Step>, i: nat, k: nat)
    requires cfg.confirms && NilWithLag(cfg, steps, i, k)
    ensures Acked(steps, i + 1 - k) && !NackedByBroker(steps, i + 1 - k)
  {
    StateIsHistory(cfg, steps);
    RunBacksNil(cfg, steps, i);
    var s := Exec(cfg, steps);
    LagIsAbandoned(s.phase, steps, s.wire[..i]);
    var t := i + 1 - k;
    assert t in s.verdicts && s.verdicts[t] == true <==> Decide(t, true) in steps;
    assert t in s.verdicts && s.verdicts[t] == false <==> Decide(t, false) in steps;
  }

  /** The documented promise, for callers behind k abandoned waits: nil means the broker acked the
      caller's own message. */
  ghost predicate OwnAckPromise(cfg: Config, k: nat) {
    forall steps, i: nat :: NilWithLag(cfg, steps, i, k) ==> Acked(steps, i + 1)
  }

  lemma Extend(cfg: Config, steps: seq<Step>, st: Step) returns (more: seq<Step>)
    requires Run(cfg, steps) && Enabled(cfg, Exec(cfg, steps), st)
    ensures more == steps + [st] && Run(cfg, more)
    ensures Exec(cfg, more) == Apply(cfg, Exec(cfg, steps), st)
  {
    more := steps + [st];
    assert more[..|more|-1] == steps;
  }

  /** Nobody is active, k messages went out, and the broker has not answered any of them. */
  ghost predicate Quiet(s: State, k: nat) {
    && s.mutex.None? && |s.wire| == k && s.verdicts == map[] && !s.closed
    && s.arrived == s.read == s.zeroReads == 0
    && (forall c :: c in s.phase ==> c < k)
  }

  /** k calls in a row that all abandon their wait. */
  lemma {:induction false} AbandonMany(cfg: Config, k: nat) returns (steps: seq<Step>)
    requires cfg.confirms
    ensures Run(cfg, steps) && Quiet(Exec(cfg, steps), k)
  {
    if k == 0 {
      steps := [];
    } else {
      var c := k - 1;
      steps := AbandonMany(cfg, c);
      steps := Extend(cfg, steps, Arrive(c, Publish));
      steps := Extend(cfg, steps, Lock(c));
      steps := Extend(cfg, steps, Send(c));
      steps := Extend(cfg, steps, Cancel(c));
      steps := Extend(cfg, steps, Unlock(c));
    }
  }

  /** Call k has sent after k abandoned waits, and the broker has not answered anything. */
  ghost predicate LaggingWaiter(s: State, k: nat) {
    && At(s, k, Waiting(k + 1)) && |s.wire| == k + 1 && s.wire[k] == k && Lag(s.phase, s.wire[..k]) == k
    && s.verdicts == map[] && !s.closed && s.arrived == s.read == 0
  }

  lemma ReachLaggingWaiter(cfg: Config, k: nat) returns (steps: seq<Step>)
    requires cfg.confirms
    ensures Run(cfg, steps) && LaggingWaiter(Exec(cfg, steps), k)
  {
    steps := AbandonMany(cfg, k);
    RunKeepsInv(cfg, steps);
    var s := Exec(cfg, steps);
    assert Lag(s.phase, s.wire) == k;
    steps := Extend(cfg, steps, Arrive(k, Publish));
    LagStep(cfg, s, Arrive(k, Publish), s.wire);
    var s1 := Exec(cfg, steps);
    steps := Extend(cfg, steps, Lock(k));
    LagStep(cfg, s1, Lock(k), s.wire);
    var s2 := Exec(cfg, steps);
    steps := Extend(cfg, steps, Send(k));
    LagStep(cfg, s2, Send(k), s.wire);
    assert Exec(cfg, steps).wire[..k] == s.wire;
  }

  /** What such a run's final state says about its steps. */
  lemma NilDespiteNackSays(cfg: Config, steps: seq<Step>, k: nat)
    requires Run(cfg, steps)
    requires
      var s := Exec(cfg, steps);
      && k < |s.wire| && Finished(s, s.wire[k]) && ResultOf(s, s.wire[k]).Nil? && Lag(s.phase, s.wire[..k]) == k
      && k + 1 in s.verdicts && !s.verdicts[k + 1]
    ensures NilWithLag(cfg, steps, k, k) && NackedByBroker(steps, k + 1) && !Acked(steps, k + 1)
  {
    StateIsHistory(cfg, steps);
    var s := Exec(cfg, steps);
    LagIsAbandoned(s.phase, steps, s.wire[..k]);
    assert k + 1 in s.verdicts && s.verdicts[k + 1] == false <==> Decide(k + 1, false) in steps;
    assert k + 1 in s.verdicts && s.verdicts[k + 1] == true <==> Decide(k + 1, true) in steps;
  }

  /** Behind k > 0 abandoned waits a caller can get nil although its own message was nacked. */
  lemma NilDespiteNack(cfg: Config, k: nat) returns (steps: seq<Step>)
    requires cfg.confirms && k > 0
    ensures NilWithLag(cfg, steps, k, k) && NackedByBroker(steps, k + 1) && !Acked(steps, k + 1)
  {
    steps := ReachLaggingWaiter(cfg, k);
    steps := Extend(cfg, steps, Decide(1, true));
    steps := Extend(cfg, steps, Decide(k + 1, false));
    if cfg.capacity > 0 {
      steps := Extend(cfg, steps, Push);
    }
    var s := Exec(cfg, steps);
    AbandonedIsNotWaiting(s, k);
    LagStep(cfg, s, Receive(k), s.wire[..k]);
    steps := Extend(cfg, steps, Receive(k));
    NilDespiteNackSays(cfg, steps, k);
  }

  lemma AbandonedIsNotWaiting(s: State, k: nat)
    requires At(s, k, Waiting(k + 1))
    ensures !WasCancelled(s.phase, k)
  {
  }

  /** The promise "nil means the broker acked this very message" holds for callers with no earlier
      abandoned wait, and for no others. */
  lemma PromiseExactlyWithoutLag(cfg: Config, k: nat)
    requires cfg.confirms
    ensures OwnAckPromise(cfg, k) <==> k == 0
  {
    if k == 0 {
      forall steps, i: nat | NilWithLag(cfg, steps, i, 0)
        ensures Acked(steps, i + 1)
      {
        NilMeansLaggedAck(cfg, steps, i, 0);
      }
    } else {
      var steps := NilDespiteNack(cfg, k);
    }
  }

  // ---------------------------------------------------------------------------------------------
  // When the library cannot hand over a confirmation
  // ---------------------------------------------------------------------------------------------

  /** The broker has decided on the next message, nobody is waiting, and the buffer is full: the client
      library stays blocked on confirmCh. */
  ghost predicate Stuck(cfg: Config, s: State) {
    && !s.closed && s.arrived + 1 in s.verdicts && Waiters(s) == 0
    && !Enabled(cfg, s, Push)
  }

  ghost predicate StuckBehind(cfg: Config, steps: seq<Step>, k: nat) {
    Run(cfg, steps) && Stuck(cfg, Exec(cfg, steps)) && Lag(Exec(cfg, steps).phase, Exec(cfg, steps).wire) == k
  }

  /** Confirmations not yet handed over, in every reachable state of an open channel: at least those of
      abandoned waits and of the waiter, less what the buffer holds. */
  lemma Backlog(cfg: Config, steps: seq<Step>)
    requires cfg.confirms && Run(cfg, steps) && !Exec(cfg, steps).closed
    ensures
      var s := Exec(cfg, steps);
      && s.arrived <= s.read + cfg.capacity
      && |s.wire| - s.arrived >= Lag(s.phase, s.wire) + Waiters(s) - cfg.capacity
  {
    RunKeepsInv(cfg, steps);
  }

  /** k messages without a waiter, the first `decided` of them decided, `full` confirmations buffered. */
  ghost predicate Filling(s: State, k: nat, decided: nat, full: nat) {
    && s.mutex.None? && |s.wire| == k && Lag(s.phase, s.wire) == k && !s.closed && s.read == 0
    && (forall t :: t in s.verdicts <==> 1 <= t <= decided) && s.arrived == full
  }

  lemma {:induction false} DecideMany(cfg: Config, k: nat, decided: nat) returns (steps: seq<Step>)
    requires cfg.confirms && decided <= k
    ensures Run(cfg, steps) && Filling(Exec(cfg, steps), k, decided, 0)
  {
    if decided == 0 {
      steps := AbandonMany(cfg, k);
      RunKeepsInv(cfg, steps);
    } else {
      steps := DecideMany(cfg, k, decided - 1);
      LagStep(cfg, Exec(cfg, steps), Decide(decided, true), Exec(cfg, steps).wire);
      steps := Extend(cfg, steps, Decide(decided, true));
    }
  }

  lemma {:induction false} PushMany(cfg: Config, k: nat, full: nat) returns (steps: seq<Step>)
    requires cfg.confirms && full <= cfg.capacity < k
    ensures Run(cfg, steps) && Filling(Exec(cfg, steps), k, cfg.capacity + 1, full)
  {
    if full == 0 {
      steps := DecideMany(cfg, k, cfg.capacity + 1);
    } else {
      steps := PushMany(cfg, k, full - 1);
      LagStep(cfg, Exec(cfg, steps), Push, Exec(cfg, steps).wire);
      steps := Extend(cfg, steps, Push);
    }
  }

  /** Behind k abandoned waits the library can get stuck, with no call waiting, exactly when k exceeds
      the capacity of the confirmation channel. */
  lemma StuckExactlyBeyondCapacity(cfg: Config, k: nat)
    requires cfg.confirms
    ensures (exists steps :: StuckBehind(cfg, steps, k)) <==> k > cfg.capacity
  {
    if steps :| StuckBehind(cfg, steps, k) {
      RunKeepsInv(cfg, steps);
    }
    if k > cfg.capacity {
      var steps := PushMany(cfg, k, cfg.capacity);
      assert StuckBehind(cfg, steps, k);
    }
  }

  // ---------------------------------------------------------------------------------------------
  // The path one call takes
  // ---------------------------------------------------------------------------------------------

  /** How one call ends: without sending, without waiting (no confirms), or out of the select. */
  datatype Ending = Rejected(why: Reason) | Unconfirmed | GotConfirm(ack: bool) | GotClosed | GotCancel

  function Middle(c: Call, e: Ending): seq<Step> {
    match e
    case Rejected(why) => [GiveUp(c, why)]
    case Unconfirmed => [Send(c)]
    case GotConfirm(_) => [Send(c), Receive(c)]
    case GotClosed => [Send(c), ReceiveClosed(c)]
    case GotCancel => [Send(c), Cancel(c)]
  }

  /** The steps of one call from entry to the deferred Unlock. */
  function Script(c: Call, entry: Entry, e: Ending): seq<Step> {
    [Arrive(c, entry), Lock(c)] + Middle(c, e) + [Unlock(c)]
  }

  function EndResult(e: Ending): Outcome {
    match e
    case Rejected(why) => Failed(why)
    case Unconfirmed => Nil
    case GotConfirm(ack) => if ack then Nil else Failed(Nacked)
    case GotClosed => Failed(Nacked)
    case GotCancel => Failed(Cancelled)
  }

  predicate EndingFits(cfg: Config, entry: Entry, e: Ending) {
    match e
    case Rejected(why) => CanGiveUp(entry, why)
    case Unconfirmed => !cfg.confirms
    case _ => cfg.confirms
  }

  predicate StepOf(st: Step, c: Call) {
    match st
    case Decide(_, _) => false
    case Push => false
    case Close => false
    case _ => st.c == c
  }

  /** The steps of a run that call c takes itself. */
  function OwnSteps(steps: seq<Step>, c: Call): seq<Step> {
    if steps == [] then []
    else OwnSteps(steps[..|steps|-1], c)
         + if StepOf(steps[|steps|-1], c) then [steps[|steps|-1]] else []
  }

  /** What call c has done, according to the phase it is in. */
  ghost predicate OnScript(cfg: Config, s: State, own: seq<Step>, c: Call) {
    if c !in s.phase then own == []
    else match s.phase[c]
      case Blocked(entry) => own == [Arrive(c, entry)]
      case Holding(entry) => own == [Arrive(c, entry), Lock(c)]
      case Waiting(_) => cfg.confirms && exists entry :: own == [Arrive(c, entry), Lock(c), Send(c)]
      case Returning(r) =>
        exists entry, e :: EndingFits(cfg, entry, e) && EndResult(e) == r && own + [Unlock(c)] == Script(c, entry, e)
      case Done(r) =>
        exists entry, e :: EndingFits(cfg, entry, e) && EndResult(e) == r && own == Script(c, entry, e)
  }

  lemma ScriptStep(cfg: Config, s: State, st: Step, own: seq<Step>, c: Call)
    requires OnScript(cfg, s, own, c) && Enabled(cfg, s, st)
    ensures OnScript(cfg, Apply(cfg, s, st), own + if StepOf(st, c) then [st] else [], c)
  {
    if !StepOf(st, c) {
      assert own + [] == own;
      assert c in s.phase <==> c in Apply(cfg, s, st).phase;
      assert c in s.phase ==> Apply(cfg, s, st).phase[c] == s.phase[c];
    } else {
      var own' := own + [st];
      match st
      case Arrive(_, _) =>
      case Lock(_) =>
      case GiveUp(_, why) =>
        assert own' + [Unlock(c)] == Script(c, s.phase[c].entry, Rejected(why));
      case Send(_) =>
        if !cfg.confirms {
          assert own' + [Unlock(c)] == Script(c, s.phase[c].entry, Unconfirmed);
        }
      case Receive(_) =>
        var entry :| own == [Arrive(c, entry), Lock(c), Send(c)];
        assert own' + [Unlock(c)] == Script(c, entry, GotConfirm(s.verdicts[s.read + 1]));
      case ReceiveClosed(_) =>
        var entry :| own == [Arrive(c, entry), Lock(c), Send(c)];
        assert own' + [Unlock(c)] == Script(c, entry, GotClosed);
      case Cancel(_) =>
        var entry :| own == [Arrive(c, entry), Lock(c), Send(c)];
        assert own' + [Unlock(c)] == Script(c, entry, GotCancel);
      case Unlock(_) =>
    }
  }

  /** In every interleaving each call walks along one script, and its result is that script's. */
  lemma {:induction false} CallFollowsScript(cfg: Config, steps: seq<Step>, c: Call)
    requires Run(cfg, steps)
    ensures OnScript(cfg, Exec(cfg, steps), OwnSteps(steps, c), c)
  {
    if steps != [] {
      var front := steps[..|steps|-1];
      CallFollowsScript(cfg, front, c);
      ScriptStep(cfg, Exec(cfg, front), steps[|steps|-1], OwnSteps(front, c), c);
    }
  }

  /** A run in which call 0 has taken the given steps and is in the given phase, alone. */
  ghost predicate Alone(cfg: Config, steps: seq<Step>, own: seq<Step>, p: Phase) {
    && Run(cfg, steps) && OwnSteps(steps, 0) == own && Exec(cfg, steps).phase == map[0 := p]
    && !Exec(cfg, steps).closed && Exec(cfg, steps).verdicts == map[]
  }

  lemma OwnExtend(cfg: Config, steps: seq<Step>, st: Step) returns (more: seq<Step>)
    requires Run(cfg, steps) && Enabled(cfg, Exec(cfg, steps), st)
    ensures Run(cfg, more) && Exec(cfg, more) == Apply(cfg, Exec(cfg, steps), st)
    ensures OwnSteps(more, 0) == OwnSteps(steps, 0) + if StepOf(st, 0) then [st] else []
  {
    more := Extend(cfg, steps, st);
    assert more[..|more|-1] == steps;
  }

  lemma HoldingAlone(cfg: Config, entry: Entry) returns (steps: seq<Step>)
    ensures Alone(cfg, steps, [Arrive(0, entry), Lock(0)], Holding(entry))
    ensures Exec(cfg, steps).wire == [] && Exec(cfg, steps).read == Exec(cfg, steps).arrived == 0
  {
    steps := OwnExtend(cfg, [], Arrive(0, entry));
    steps := OwnExtend(cfg, steps, Lock(0));
  }

  lemma WaitingAlone(cfg: Config, entry: Entry) returns (steps: seq<Step>)
    requires cfg.confirms
    ensures Alone(cfg, steps, [Arrive(0, entry), Lock(0), Send(0)], Waiting(1))
    ensures |Exec(cfg, steps).wire| == 1 && Exec(cfg, steps).read == Exec(cfg, steps).arrived == 0
  {
    steps := HoldingAlone(cfg, entry);
    steps := OwnExtend(cfg, steps, Send(0));
  }

  lemma DecidedAlone(cfg: Config, entry: Entry, ack: bool) returns (steps: seq<Step>)
    requires cfg.confirms
    ensures Run(cfg, steps) && OwnSteps(steps, 0) == [Arrive(0, entry), Lock(0), Send(0)]
    ensures At(Exec(cfg, steps), 0, Waiting(1)) && Exec(cfg, steps).verdicts == map[1 := ack]
    ensures Exec(cfg, steps).read == 0 && Enabled(cfg, Exec(cfg, steps), Receive(0))
  {
    steps := WaitingAlone(cfg, entry);
    steps := OwnExtend(cfg, steps, Decide(1, ack));
    if cfg.capacity > 0 {
      steps := OwnExtend(cfg, steps, Push);
    }
  }

  lemma ConfirmHappens(cfg: Config, entry: Entry, ack: bool) returns (steps: seq<Step>)
    requires cfg.confirms
    ensures Run(cfg, steps) && OwnSteps(steps, 0) == [Arrive(0, entry), Lock(0), Send(0), Receive(0)]
    ensures At(Exec(cfg, steps), 0, Returning(if ack then Nil else Failed(Nacked)))
  {
    steps := DecidedAlone(cfg, entry, ack);
    steps := OwnExtend(cfg, steps, Receive(0));
  }

  lemma ClosedHappens(cfg: Config, entry: Entry) returns (steps: seq<Step>)
    requires cfg.confirms
    ensures Run(cfg, steps) && OwnSteps(steps, 0) == [Arrive(0, entry), Lock(0), Send(0), ReceiveClosed(0)]
    ensures At(Exec(cfg, steps), 0, Returning(Failed(Nacked)))
  {
    steps := WaitingAlone(cfg, entry);
    steps := OwnExtend(cfg, steps, Close);
    steps := OwnExtend(cfg, steps, ReceiveClosed(0));
  }

  lemma CancelHappens(cfg: Config, entry: Entry) returns (steps: seq<Step>)
    requires cfg.confirms
    ensures Run(cfg, steps) && OwnSteps(steps, 0) == [Arrive(0, entry), Lock(0), Send(0), Cancel(0)]
    ensures At(Exec(cfg, steps), 0, Returning(Failed(Cancelled)))
  {
    steps := WaitingAlone(cfg, entry);
    steps := OwnExtend(cfg, steps, Cancel(0));
  }

  /** Conversely every path the entry point allows is taken in some run, to its end. */
  lemma EveryPathHappens(cfg: Config, entry: Entry, e: Ending) returns (steps: seq<Step>)
    requires EndingFits(cfg, entry, e)
    ensures Run(cfg, steps) && OwnSteps(steps, 0) == Script(0, entry, e)
    ensures At(Exec(cfg, steps), 0, Done(EndResult(e)))
  {
    match e {
      case Rejected(why) =>
        steps := HoldingAlone(cfg, entry);
        steps := OwnExtend(cfg, steps, GiveUp(0, why));
      case Unconfirmed =>
        steps := HoldingAlone(cfg, entry);
        steps := OwnExtend(cfg, steps, Send(0));
      case GotConfirm(ack) => steps := ConfirmHappens(cfg, entry, ack);
      case GotClosed => steps := ClosedHappens(cfg, entry);
      case GotCancel => steps := CancelHappens(cfg, entry);
    }
    steps := OwnExtend(cfg, steps, Unlock(0));
  }
}
