/** Which handler runs for which routing key: the per-queue pattern tables and their registration. */
module Registry {
  import opened Basics

  type Handler = int
  /** routingKeyHandler: pattern to handler. */
  type Handlers = map<string, Handler>
  /** queueConsumers.consumers: queue to its pattern table. */
  type Table = map<string, Handlers>

  /** spec.MatchRoutingKey and spec.RoutingKeyOverlaps, which belong to another module. */
  datatype Matcher = Matcher(matches: (string, string) -> bool, overlaps: (string, string) -> bool)

  /** The hypotheses on the two functions: overlap is reflexive and symmetric, and two patterns that
      match a common key overlap. */
  ghost predicate Sound(m: Matcher) {
    && (forall p :: m.overlaps(p, p))
    && (forall p, q :: m.overlaps(p, q) ==> m.overlaps(q, p))
    && (forall p, q, k :: m.matches(p, k) && m.matches(q, k) ==> m.overlaps(p, q))
  }

  // ---------------------------------------------------------------------------------------------
  // One queue
  // ---------------------------------------------------------------------------------------------

  /** No two registered patterns overlap. */
  ghost predicate Disjoint(m: Matcher, hs: Handlers) {
    forall p, q :: p in hs && q in hs && m.overlaps(p, q) ==> p == q
  }

  /** The answer of `get` when the range statement produces the patterns in `order`. */
  function FirstMatch(m: Matcher, hs: Handlers, order: seq<string>, key: string): Option<Handler>
    requires forall p :: p in order ==> p in hs
  {
    if order == [] then None
    else if m.matches(order[0], key) then Some(hs[order[0]])
    else FirstMatch(m, hs, order[1..], key)
  }

  /** r is the handler of some pattern that matches, or None and no pattern matches. */
  ghost predicate IsLookup(m: Matcher, hs: Handlers, key: string, r: Option<Handler>) {
    match r
    case Some(h) => exists p :: p in hs && m.matches(p, key) && hs[p] == h
    case None => forall p :: p in hs ==> !m.matches(p, key)
  }

  /** routingKeyHandler.get */
  method FindHandler(m: Matcher, hs: Handlers, key: string) returns (r: Option<Handler>, ghost order: seq<string>)
    ensures IsOrder(hs.Keys, order) && r == FirstMatch(m, hs, order, key)
    ensures IsLookup(m, hs, key, r)
  {
    var rest := hs.Keys;
    ghost var seen: seq<string> := [];
    while rest != {}
      invariant rest <= hs.Keys && IsOrder(hs.Keys - rest, seen)
      invariant forall p :: p in hs.Keys - rest ==> !m.matches(p, key)
    {
      var p :| p in rest;
      if m.matches(p, key) {
        ghost var tail := OrderExists(rest - {p});
        OrderConcat(hs.Keys - rest, {p}, seen, [p]);
        OrderConcat(hs.Keys - rest + {p}, rest - {p}, seen + [p], tail);
        assert hs.Keys - rest + {p} + (rest - {p}) == hs.Keys;
        order := seen + [p] + tail;
        FirstMatchAt(m, hs, order, key, |seen|);
        return Some(hs[p]), order;
      }
      rest := rest - {p};
      seen := seen + [p];
    }
    NoFirstMatch(m, hs, seen, key);
    return None, seen;
  }

  lemma {:induction false} FirstMatchAt(m: Matcher, hs: Handlers, order: seq<string>, key: string, i: nat)
    requires forall p :: p in order ==> p in hs
    requires i < |order| && m.matches(order[i], key)
    requires forall j :: 0 <= j < i ==> !m.matches(order[j], key)
    ensures FirstMatch(m, hs, order, key) == Some(hs[order[i]])
  {
    if i > 0 {
      FirstMatchAt(m, hs, order[1..], key, i - 1);
    }
  }

  lemma {:induction false} NoFirstMatch(m: Matcher, hs: Handlers, order: seq<string>, key: string)
    requires forall p :: p in order ==> p in hs
    requires forall j :: 0 <= j < |order| ==> !m.matches(order[j], key)
    ensures FirstMatch(m, hs, order, key) == None
  {
    if order != [] {
      NoFirstMatch(m, hs, order[1..], key);
    }
  }

  /** routingKeyHandler.exists: some registered pattern overlapping `pattern`, if there is one. */
  method FindOverlap(m: Matcher, hs: Handlers, pattern: string) returns (r: Option<string>)
    ensures r.Some? ==> r.value in hs && m.overlaps(pattern, r.value)
    ensures r.None? ==> forall p :: p in hs ==> !m.overlaps(pattern, p)
  {
    var rest := hs.Keys;
    while rest != {}
      invariant rest <= hs.Keys
      invariant forall p :: p in hs.Keys - rest ==> !m.overlaps(pattern, p)
    {
      var p :| p in rest;
      if m.overlaps(pattern, p) {
        return Some(p);
      }
      rest := rest - {p};
    }
    return None;
  }

  /** Two registered patterns matching the same key are the same pattern. */
  lemma AtMostOneMatch(m: Matcher, hs: Handlers, key: string, p: string, q: string)
    requires Sound(m) && Disjoint(m, hs)
    requires p in hs && q in hs && m.matches(p, key) && m.matches(q, key)
    ensures p == q
  {
    assert m.overlaps(p, q);
  }

  lemma {:induction false} FirstMatchIsLookup(m: Matcher, hs: Handlers, order: seq<string>, key: string)
    requires forall p :: p in order ==> p in hs
    ensures FirstMatch(m, hs, order, key).Some? ==>
              exists p :: p in hs && m.matches(p, key) && hs[p] == FirstMatch(m, hs, order, key).value
    ensures FirstMatch(m, hs, order, key).None? ==> forall p :: p in order ==> !m.matches(p, key)
  {
    if order != [] && !m.matches(order[0], key) {
      FirstMatchIsLookup(m, hs, order[1..], key);
    }
  }

  /** A lookup has one answer. */
  lemma LookupUnique(m: Matcher, hs: Handlers, key: string, r: Option<Handler>, r': Option<Handler>)
    requires Sound(m) && Disjoint(m, hs)
    requires IsLookup(m, hs, key, r) && IsLookup(m, hs, key, r')
    ensures r == r'
  {
    if r.Some? && r'.Some? {
      var p :| p in hs && m.matches(p, key) && hs[p] == r.value;
      var q :| q in hs && m.matches(q, key) && hs[q] == r'.value;
      AtMostOneMatch(m, hs, key, p, q);
    }
  }

  /** In every iteration order a lookup finds the handler of any pattern that matches. */
  lemma MatchIsFound(m: Matcher, hs: Handlers, order: seq<string>, key: string, p: string)
    requires Sound(m) && Disjoint(m, hs) && IsOrder(hs.Keys, order) && p in hs && m.matches(p, key)
    ensures FirstMatch(m, hs, order, key) == Some(hs[p])
  {
    FirstMatchIsLookup(m, hs, order, key);
    LookupUnique(m, hs, key, FirstMatch(m, hs, order, key), Some(hs[p]));
  }

  // ---------------------------------------------------------------------------------------------
  // All queues, and registration
  // ---------------------------------------------------------------------------------------------

  function HandlersOf(t: Table, queue: string): Handlers {
    if queue in t then t[queue] else map[]
  }

  predicate Clashes(m: Matcher, t: Table, queue: string, pattern: string) {
    exists p :: p in HandlersOf(t, queue) && m.overlaps(pattern, p)
  }

  /** queueConsumers.add on values: the table afterwards. */
  function Added(m: Matcher, t: Table, queue: string, pattern: string, h: Handler): Table {
    if Clashes(m, t, queue, pattern) then t else t[queue := HandlersOf(t, queue)[pattern := h]]
  }

  datatype AddCall = AddCall(queue: string, pattern: string, handler: Handler)

  /** The table after a sequence of calls to add, successful or failing. */
  function Registered(m: Matcher, calls: seq<AddCall>): Table {
    if calls == [] then map[]
    else
      var c := calls[|calls|-1];
      Added(m, Registered(m, calls[..|calls|-1]), c.queue, c.pattern, c.handler)
  }

  /** The body of queueConsumers.add: look for an overlapping pattern, then store the handler. */
  method Register(m: Matcher, t: Table, queue: string, pattern: string, h: Handler) returns (ok: bool, t': Table)
    ensures ok <==> !Clashes(m, t, queue, pattern)
    ensures t' == Added(m, t, queue, pattern, h)
  {
    var handlers: Handlers := if queue in t then t[queue] else map[];
    var clash := FindOverlap(m, handlers, pattern);
    if clash.Some? {
      assert clash.value in HandlersOf(t, queue);
      return false, t;
    }
    return true, t[queue := handlers[pattern := h]];
  }

  class QueueConsumers {
    var consumers: Table
    const m: Matcher

    constructor (m: Matcher)
      ensures this.m == m && consumers == map[]
    {
      this.m := m;
      consumers := map[];
    }

    /** queueConsumers.add */
    method Add(queue: string, pattern: string, h: Handler) returns (ok: bool)
      modifies this
      ensures ok <==> !Clashes(m, old(consumers), queue, pattern)
      ensures consumers == Added(m, old(consumers), queue, pattern, h)
    {
      ok, consumers := Register(m, consumers, queue, pattern, h);
    }

    /** queueConsumers.get */
    method Get(queue: string, key: string) returns (r: Option<Handler>)
      ensures IsLookup(m, HandlersOf(consumers, queue), key, r)
    {
      if queue !in consumers {
        return None;
      }
      ghost var order;
      r, order := FindHandler(m, consumers[queue], key);
    }
  }

  ghost predicate AllDisjoint(m: Matcher, t: Table) {
    forall q :: q in t ==> Disjoint(m, t[q])
  }

  lemma AddKeepsDisjoint(m: Matcher, t: Table, queue: string, pattern: string, h: Handler)
    requires Sound(m) && AllDisjoint(m, t)
    ensures AllDisjoint(m, Added(m, t, queue, pattern, h))
  {
    var before := HandlersOf(t, queue);
    if !Clashes(m, t, queue, pattern) {
      forall p, q | p in before[pattern := h] && q in before[pattern := h] && m.overlaps(p, q)
        ensures p == q
      {
        assert m.overlaps(q, p);
      }
    }
  }

  lemma {:induction false} RegisteredDisjoint(m: Matcher, calls: seq<AddCall>)
    requires Sound(m)
    ensures AllDisjoint(m, Registered(m, calls))
  {
    if calls != [] {
      var c := calls[|calls|-1];
      RegisteredDisjoint(m, calls[..|calls|-1]);
      AddKeepsDisjoint(m, Registered(m, calls[..|calls|-1]), c.queue, c.pattern, c.handler);
    }
  }

  /** Registry determinism: after any sequence of add calls, at most one pattern of a queue matches a
      key, every iteration order of the map gives the same answer, and that answer is a handler
      exactly when some registered pattern matches. */
  lemma RegistryDeterminism(m: Matcher, calls: seq<AddCall>, queue: string, key: string,
                            order: seq<string>, order': seq<string>)
    requires Sound(m)
    requires IsOrder(HandlersOf(Registered(m, calls), queue).Keys, order)
    requires IsOrder(HandlersOf(Registered(m, calls), queue).Keys, order')
    ensures
      var hs := HandlersOf(Registered(m, calls), queue);
      && (forall p, q :: p in hs && q in hs && m.matches(p, key) && m.matches(q, key) ==> p == q)
      && FirstMatch(m, hs, order, key) == FirstMatch(m, hs, order', key)
      && (FirstMatch(m, hs, order, key).Some? <==> exists p :: p in hs && m.matches(p, key))
  {
    var hs := HandlersOf(Registered(m, calls), queue);
    RegisteredDisjoint(m, calls);
    assert Disjoint(m, hs);
    forall p, q | p in hs && q in hs && m.matches(p, key) && m.matches(q, key)
      ensures p == q
    {
      AtMostOneMatch(m, hs, key, p, q);
    }
    FirstMatchIsLookup(m, hs, order, key);
    FirstMatchIsLookup(m, hs, order', key);
    LookupUnique(m, hs, key, FirstMatch(m, hs, order, key), FirstMatch(m, hs, order', key));
  }

  /** The call at position i registered its pattern. */
  ghost predicate Succeeded(m: Matcher, calls: seq<AddCall>, i: nat) {
    i < |calls| && !Clashes(m, Registered(m, calls[..i]), calls[i].queue, calls[i].pattern)
  }

  /** First come, first served: a queue maps a pattern to a handler exactly when some call that met no
      overlapping pattern registered it. In particular a registration is never replaced or lost. */
  lemma {:induction false} FirstComeFirstServed(m: Matcher, calls: seq<AddCall>, queue: string, pattern: string,
                                                h: Handler)
    requires Sound(m)
    ensures
      var hs := HandlersOf(Registered(m, calls), queue);
      (pattern in hs && hs[pattern] == h)
      <==> exists i: nat :: Succeeded(m, calls, i) && calls[i] == AddCall(queue, pattern, h)
  {
    if calls != [] {
      var n := |calls| - 1;
      var front := calls[..n];
      FirstComeFirstServed(m, front, queue, pattern, h);
      assert forall i :: 0 <= i <= n ==> front[..i] == calls[..i];
      var hs, hs' := HandlersOf(Registered(m, front), queue), HandlersOf(Registered(m, calls), queue);
      if pattern in hs' && hs'[pattern] == h {
        if pattern in hs && hs[pattern] == h {
          var i: nat :| Succeeded(m, front, i) && front[i] == AddCall(queue, pattern, h);
          assert Succeeded(m, calls, i);
        } else {
          assert Succeeded(m, calls, n);
        }
      }
      if i: nat :| Succeeded(m, calls, i) && calls[i] == AddCall(queue, pattern, h) {
        if i < n {
          assert Succeeded(m, front, i);
        }
      }
    }
  }
}
