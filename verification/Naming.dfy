/** The deterministic exchange and queue names. */
module Naming {
  import opened Basics

  const DEFAULT_STREAM := "events"

  function TopicExchange(stream: string): string { stream + ".topic.exchange" }
  function RequestExchange(service: string): string { service + ".direct.exchange.request" }
  function ResponseExchange(service: string): string { service + ".headers.exchange.response" }

  /** serviceEventQueueName */
  function EventQueueName(exchange: string, service: string): string { exchange + ".queue." + service }
  function RequestQueueName(service: string): string { RequestExchange(service) + ".queue" }
  function ResponseQueueName(target: string, service: string): string {
    ResponseExchange(target) + ".queue." + service
  }
  /** serviceEventRandomQueueName for a given random string. */
  function RandomQueueName(exchange: string, service: string, random: string): string {
    exchange + ".queue." + service + "-" + random
  }

  /** trimExchangeFromQueue */
  function TrimExchange(queue: string, exchange: string): string {
    TrimPrefix(TrimPrefix(queue, exchange), ".")
  }

  datatype Kind = Topic | Direct | HeaderMatch

  /** The three exchange-name builders. */
  datatype ExchangeId = Stream(stream: string) | Requests(service: string) | Responses(service: string)

  function ExchangeName(e: ExchangeId): string {
    match e
    case Stream(s) => TopicExchange(s)
    case Requests(s) => RequestExchange(s)
    case Responses(s) => ResponseExchange(s)
  }

  function KindOf(e: ExchangeId): Kind {
    match e
    case Stream(_) => Topic
    case Requests(_) => Direct
    case Responses(_) => HeaderMatch
  }

  /** The last but k-th character of a name with a known ending. */
  lemma Ending(a: string, tail: string, k: nat)
    requires k < |tail|
    ensures (a + tail)[|a + tail| - 1 - k] == tail[|tail| - 1 - k]
  {
  }

  /** Each exchange-name builder is injective and the three ranges are disjoint, for all strings. */
  lemma ExchangeNamesInjective(d: ExchangeId, e: ExchangeId)
    requires ExchangeName(d) == ExchangeName(e)
    ensures d == e
  {
    var n := ExchangeName(d);
    forall x: ExchangeId | ExchangeName(x) == n
      ensures n[|n|-1] == (if x.Requests? then 't' else 'e') && n[|n|-2] == (if x.Stream? then 'g' else 's')
    {
      match x
      case Stream(s) => Ending(s, ".topic.exchange", 0); Ending(s, ".topic.exchange", 1);
      case Requests(s) => Ending(s, ".direct.exchange.request", 0); Ending(s, ".direct.exchange.request", 1);
      case Responses(s) => Ending(s, ".headers.exchange.response", 0); Ending(s, ".headers.exchange.response", 1);
    }
    match d
    case Stream(s) => CancelSuffix(s, e.stream, ".topic.exchange");
    case Requests(s) => CancelSuffix(s, e.service, ".direct.exchange.request");
    case Responses(s) => CancelSuffix(s, e.service, ".headers.exchange.response");
  }

  /** The queue-name builders, without random part or suffix. */
  datatype QueueId =
    | EventQueue(stream: string, consumer: string)
    | RequestQueue(service: string)
    | ResponseQueue(target: string, consumer: string)

  function QueueName(q: QueueId): string {
    match q
    case EventQueue(s, c) => EventQueueName(TopicExchange(s), c)
    case RequestQueue(s) => RequestQueueName(s)
    case ResponseQueue(t, c) => ResponseQueueName(t, c)
  }

  /** The exchange a queue is meant for. */
  function SourceOf(q: QueueId): ExchangeId {
    match q
    case EventQueue(x, _) => Stream(x)
    case RequestQueue(s) => Requests(s)
    case ResponseQueue(t, _) => Responses(t)
  }

  /** Everything before the last dot of a queue name, and what follows it. */
  function Stem(q: QueueId): string {
    match q
    case EventQueue(s, _) => TopicExchange(s) + ".queue"
    case RequestQueue(s) => RequestExchange(s)
    case ResponseQueue(t, _) => ResponseExchange(t) + ".queue"
  }

  function LastWord(q: QueueId): string { if q.RequestQueue? then "queue" else q.consumer }

  lemma LastDot(a: string, b: string, s: string, t: string)
    requires a + "." + s == b + "." + t && DotFree(s) && DotFree(t)
    ensures a == b && s == t
  {
    var n := a + "." + s;
    assert n == b + "." + t;
    assert forall j :: |b| < j < |n| ==> n[j] == t[j - |b| - 1];
    assert forall j :: |a| < j < |n| ==> n[j] == s[j - |a| - 1];
    assert n[|a|] == '.' && n[|b|] == '.';
    assert |s| == |t|;
    assert a == n[..|a|] && b == n[..|b|];
    assert s == n[|a|+1..] && t == n[|b|+1..];
  }

  lemma QueueNameSplits(q: QueueId)
    ensures QueueName(q) == Stem(q) + "." + LastWord(q)
  {
    match q
    case EventQueue(s, c) =>
      assert TopicExchange(s) + ".queue." + c == TopicExchange(s) + ".queue" + "." + c;
    case RequestQueue(s) =>
      assert RequestExchange(s) + ".queue" == RequestExchange(s) + "." + "queue";
    case ResponseQueue(t, c) =>
      assert ResponseExchange(t) + ".queue." + c == ResponseExchange(t) + ".queue" + "." + c;
  }

  lemma StemsDiffer(p: QueueId, q: QueueId)
    requires Stem(p) == Stem(q)
    ensures p.RequestQueue? == q.RequestQueue?
    ensures p.EventQueue? ==> q.EventQueue? && p.stream == q.stream
    ensures p.RequestQueue? ==> p.service == q.service
    ensures p.ResponseQueue? ==> q.ResponseQueue? && p.target == q.target
  {
    var n := Stem(p);
    forall x: QueueId | Stem(x) == n
      ensures n[|n|-1] == (if x.RequestQueue? then 't' else 'e')
    {
      match x
      case EventQueue(s, _) => Ending(TopicExchange(s), ".queue", 0);
      case RequestQueue(s) => Ending(s, ".direct.exchange.request", 0);
      case ResponseQueue(t, _) => Ending(ResponseExchange(t), ".queue", 0);
    }
    if p.RequestQueue? {
      ExchangeNamesInjective(Requests(p.service), Requests(q.service));
    } else {
      var d := if p.EventQueue? then Stream(p.stream) else Responses(p.target);
      var e := if q.EventQueue? then Stream(q.stream) else Responses(q.target);
      CancelSuffix(ExchangeName(d), ExchangeName(e), ".queue");
      ExchangeNamesInjective(d, e);
    }
  }

  /** The queue builders are jointly injective as soon as the consuming service's name is free of
      dots; stream names, target names and the name of a request queue's owner may be anything. */
  lemma QueueNamesInjective(p: QueueId, q: QueueId)
    requires QueueName(p) == QueueName(q)
    requires DotFree(LastWord(p)) && DotFree(LastWord(q))
    ensures p == q
  {
    QueueNameSplits(p);
    QueueNameSplits(q);
    LastDot(Stem(p), Stem(q), LastWord(p), LastWord(q));
    StemsDiffer(p, q);
  }

  // ---------------------------------------------------------------------------------------------
  // Exactly when dotted names collide
  // ---------------------------------------------------------------------------------------------

  const EVENT_TAIL := ".topic.exchange.queue."
  const RESPONSE_TAIL := ".headers.exchange.response.queue."
  const REQUEST_TAIL := ".direct.exchange.request.queue"

  /** A queue name is its head, the tail of its kind, and the consumer. */
  function Head(q: QueueId): string {
    match q
    case EventQueue(s, _) => s
    case RequestQueue(s) => s
    case ResponseQueue(t, _) => t
  }

  function Tail(q: QueueId): string {
    match q
    case EventQueue(_, _) => EVENT_TAIL
    case RequestQueue(_) => REQUEST_TAIL
    case ResponseQueue(_, _) => RESPONSE_TAIL
  }

  function ConsumerPart(q: QueueId): string { if q.RequestQueue? then "" else q.consumer }

  lemma QueueNameParts(q: QueueId)
    ensures QueueName(q) == Head(q) + Tail(q) + ConsumerPart(q)
  {
    match q
    case EventQueue(s, c) => assert QueueName(q) == s + EVENT_TAIL + c;
    case RequestQueue(s) => assert QueueName(q) == s + REQUEST_TAIL + "";
    case ResponseQueue(t, c) => assert QueueName(q) == t + RESPONSE_TAIL + c;
  }

  /** The names as the documentation spells them out. */
  lemma NamesAsDocumented(name: string, service: string, caller: string, random: string)
    ensures ExchangeName(Stream(name)) == name + ".topic.exchange"
    ensures ExchangeName(Requests(service)) == service + ".direct.exchange.request"
    ensures ExchangeName(Responses(service)) == service + ".headers.exchange.response"
    ensures QueueName(EventQueue(name, service)) == name + ".topic.exchange.queue." + service
    ensures QueueName(RequestQueue(service)) == service + ".direct.exchange.request.queue"
    ensures QueueName(ResponseQueue(service, caller)) == service + ".headers.exchange.response.queue." + caller
    ensures RandomQueueName(TopicExchange(name), service, random)
         == name + ".topic.exchange.queue." + service + "-" + random
    ensures DEFAULT_STREAM == "events"
  {
    QueueNameParts(EventQueue(name, service));
    QueueNameParts(RequestQueue(service));
    QueueNameParts(ResponseQueue(service, caller));
  }

  lemma Reassociate(a: string, b: string, c: string, d: string, e: string)
    ensures a + b + (c + d + e) == (a + b + c) + d + e
  {
  }

  /** With dots in the consuming service's name two different queues can share one name. */
  lemma DottedNamesCollide(x: string, y: string, c: string)
    ensures
      var p, q := EventQueue(x, y + EVENT_TAIL + c), EventQueue(x + EVENT_TAIL + y, c);
      p != q && QueueName(p) == QueueName(q)
  {
    QueueNameParts(EventQueue(x, y + EVENT_TAIL + c));
    QueueNameParts(EventQueue(x + EVENT_TAIL + y, c));
    Reassociate(x, EVENT_TAIL, y, EVENT_TAIL, c);
    assert |c| < |y + EVENT_TAIL + c|;
  }

  predicate EndsWith(s: string, t: string) { |t| <= |s| && s[|s| - |t|..] == t }

  /** The name c contains the whole end of a queue of consumer d. */
  predicate Hides(c: string, d: string) {
    EndsWith("." + c, EVENT_TAIL + d) || EndsWith("." + c, RESPONSE_TAIL + d)
  }

  /** The name c contains the whole end of a request queue. */
  predicate HidesRequest(c: string) { EndsWith("." + c, REQUEST_TAIL) }

  /** In t, no dot but the first and the last follows "ue". */
  ghost predicate NoEarlyCut(t: string) {
    && |t| > 3 && t[0] == '.' && t[1] != '.'
    && (forall j :: 2 <= j < |t| - 1 && t[j] == '.' ==> t[j-1] != 'e' || t[j-2] != 'u')
  }

  lemma TailsHaveNoEarlyCut(q: QueueId)
    ensures NoEarlyCut(Tail(q))
    ensures q.RequestQueue? <==> Tail(q)[|Tail(q)|-1] != '.'
    ensures !q.RequestQueue? ==> var n := |Tail(q)|; Tail(q)[n-3] == 'u' && Tail(q)[n-2] == 'e'
  {
  }

  /** The end of a tail that is followed by a consumer. */
  predicate Cut(s: string) { |s| >= 3 && s[|s|-1] == '.' && s[|s|-2] == 'e' && s[|s|-3] == 'u' }

  /** Where such an end, followed by `mid`, ends in a whole tail t, that tail lies within `mid` but for its
      first dot: tails overlap in a dot only. */
  lemma TailsOverlapInDot(a: string, t: string, mid: string, y: string)
    requires Cut(a) && NoEarlyCut(t) && a + mid == y + t
    ensures mid == "" ==> t[|t|-1] == '.'
    ensures mid != "" ==> EndsWith("." + mid, t)
  {
    var n, cut := a + mid, |a| - 1;
    var j := |t| - 1 - |mid|;
    assert forall i :: 0 <= i < |t| ==> n[|y| + i] == t[i];
    if j >= 0 {
      assert t[j] == n[cut] == '.';
      if j >= 2 {
        assert t[j-1] == n[cut-1] && t[j-2] == n[cut-2];
      }
      assert t == n[|y|..];
      assert j == 0 ==> n[|y|..] == "." + mid;
    } else {
      var dotted := "." + mid;
      assert t == mid[|mid| - |t|..] == dotted[|dotted| - |t|..];
    }
  }

  lemma TailIsCut(p: QueueId)
    requires !p.RequestQueue?
    ensures Cut(Head(p) + Tail(p))
  {
    TailsHaveNoEarlyCut(p);
  }

  lemma SplitSharedName(a: string, c: string, b: string, d: string) returns (mid: string)
    requires a + c == b + d && |d| <= |c|
    ensures c == mid + d && a + mid == b
  {
    mid := c[..|c| - |d|];
    var n := a + c;
    assert c == n[|a|..] && d == n[|b|..];
    assert mid == n[|a|..|b|];
    assert b == n[..|b|] && a == n[..|a|];
  }

  lemma EndsWithAppend(s: string, t: string, d: string)
    requires EndsWith(s, t)
    ensures EndsWith(s + d, t + d)
  {
    assert (s + d)[|s + d| - |t + d|..] == s[|s| - |t|..] + d;
  }

  lemma CutHides(a: string, c: string, y: string, t: string, d: string)
    requires Cut(a) && NoEarlyCut(t) && a + c == y + t + d && |d| <= |c|
    ensures EndsWith("." + c, t + d) || (c == d && t[|t|-1] == '.')
  {
    var mid := SplitSharedName(a, c, y + t, d);
    TailsOverlapInDot(a, t, mid, y);
    if mid == "" {
      assert c == d;
    } else {
      EndsWithAppend("." + mid, t, d);
      assert "." + c == ("." + mid) + d;
    }
  }

  lemma CancelWord(a: string, b: string, w: string)
    requires a + "." + w == b + "." + w
    ensures a == b
  {
    assert a + "." + w == a + ("." + w) && b + "." + w == b + ("." + w);
    CancelSuffix(a, b, "." + w);
  }

  lemma SameConsumerSameQueue(p: QueueId, q: QueueId)
    requires QueueName(p) == QueueName(q) && LastWord(p) == LastWord(q)
    ensures p.RequestQueue? == q.RequestQueue? ==> p == q
  {
    QueueNameSplits(p);
    QueueNameSplits(q);
    CancelWord(Stem(p), Stem(q), LastWord(p));
    StemsDiffer(p, q);
  }

  /** If two different queues share a name, the longer consumer name hides the other queue. */
  lemma SharedNameHides(p: QueueId, q: QueueId)
    requires QueueName(p) == QueueName(q) && p != q
    requires !p.RequestQueue? && |ConsumerPart(q)| <= |ConsumerPart(p)|
    ensures EndsWith("." + p.consumer, Tail(q) + ConsumerPart(q))
  {
    QueueNameParts(p);
    QueueNameParts(q);
    TailIsCut(p);
    TailsHaveNoEarlyCut(q);
    CutHides(Head(p) + Tail(p), p.consumer, Head(q), Tail(q), ConsumerPart(q));
    if !q.RequestQueue? && p.consumer == q.consumer {
      SameConsumerSameQueue(p, q);
    }
  }

  lemma EndsWithRest(a: string, c: string)
    requires a != "" && a[|a|-1] == '.'
    ensures EndsWith(a + c, "." + c)
  {
    assert (a + c)[|a|-1..] == "." + c;
  }

  lemma CutEnd(n: string, dotted: string, w: string) returns (head: string)
    requires EndsWith(n, dotted) && EndsWith(dotted, w)
    ensures n == head + w
  {
    head := n[..|n| - |w|];
    assert n[|n| - |w|..] == dotted[|dotted| - |w|..];
  }

  /** Conversely a hidden end can be read as a queue of that kind. */
  lemma HiddenIsShared(p: QueueId, t: string, d: string) returns (head: string)
    requires !p.RequestQueue? && EndsWith("." + p.consumer, t + d) && |t| > 1
    ensures head + t + d == QueueName(p) && |d| < |p.consumer|
  {
    QueueNameParts(p);
    TailIsCut(p);
    EndsWithRest(Head(p) + Tail(p), p.consumer);
    head := CutEnd(QueueName(p), "." + p.consumer, t + d);
    assert head + t + d == head + (t + d);
  }

  predicate SharedBy(p: QueueId, q: QueueId, c: string, d: string) {
    && !p.RequestQueue? && !q.RequestQueue? && p.consumer == c && q.consumer == d
    && p != q && QueueName(p) == QueueName(q)
  }

  /** Some queue of c and some other queue of d, neither a request queue, have one name. */
  ghost predicate CanCollide(c: string, d: string) {
    exists p, q :: SharedBy(p, q, c, d)
  }

  lemma HidesCollides(c: string, d: string)
    requires Hides(c, d)
    ensures CanCollide(c, d) && CanCollide(d, c)
  {
    var p := EventQueue("", c);
    var q;
    if EndsWith("." + c, EVENT_TAIL + d) {
      var head := HiddenIsShared(p, EVENT_TAIL, d);
      q := EventQueue(head, d);
    } else {
      var head := HiddenIsShared(p, RESPONSE_TAIL, d);
      q := ResponseQueue(head, d);
    }
    QueueNameParts(q);
    assert SharedBy(p, q, c, d) && SharedBy(q, p, d, c);
  }

  /** Queues of consumers c and d can share a name exactly when one of the names hides the other. */
  lemma ConsumersCollideExactly(c: string, d: string)
    ensures CanCollide(c, d) <==> Hides(c, d) || Hides(d, c)
  {
    if CanCollide(c, d) {
      var p, q :| SharedBy(p, q, c, d);
      if |d| <= |c| { SharedNameHides(p, q); } else { SharedNameHides(q, p); }
    }
    if Hides(c, d) { HidesCollides(c, d); }
    if Hides(d, c) { HidesCollides(d, c); }
  }

  /** A queue has the name of some service's request queue exactly when its consumer's name hides one. */
  lemma RequestCollidesExactly(p: QueueId)
    requires !p.RequestQueue?
    ensures (exists s :: RequestQueueName(s) == QueueName(p)) <==> HidesRequest(p.consumer)
  {
    if s :| RequestQueueName(s) == QueueName(p) {
      SharedNameHides(p, RequestQueue(s));
      assert REQUEST_TAIL + "" == REQUEST_TAIL;
    }
    if HidesRequest(p.consumer) {
      assert REQUEST_TAIL + "" == REQUEST_TAIL;
      var s := HiddenIsShared(p, REQUEST_TAIL, "");
      QueueNameParts(RequestQueue(s));
      assert RequestQueueName(s) == QueueName(p);
    }
  }

  /** A request queue of anyone, or another queue of one of these consumers. */
  predicate QueueOf(q: QueueId, consumers: set<string>) { q.RequestQueue? || q.consumer in consumers }

  ghost predicate UniqueNames(consumers: set<string>) {
    forall p, q :: QueueOf(p, consumers) && QueueOf(q, consumers) && QueueName(p) == QueueName(q) ==> p == q
  }

  /** All queues of a set of services have different names, whatever the streams and targets, exactly when
      no service name hides another one's queue or a request queue. */
  lemma NamesUniqueExactly(consumers: set<string>)
    ensures UniqueNames(consumers)
            <==> forall c :: c in consumers ==> !HidesRequest(c) && forall d :: d in consumers ==> !Hides(c, d)
  {
    if UniqueNames(consumers) {
      forall c | c in consumers
        ensures !HidesRequest(c)
      {
        var p := EventQueue("", c);
        RequestCollidesExactly(p);
        assert forall s :: QueueName(RequestQueue(s)) == RequestQueueName(s);
      }
      forall c, d | c in consumers && d in consumers
        ensures !Hides(c, d)
      {
        ConsumersCollideExactly(c, d);
      }
    } else {
      var p, q :| QueueOf(p, consumers) && QueueOf(q, consumers) && QueueName(p) == QueueName(q) && p != q;
      if p.RequestQueue? && q.RequestQueue? {
        SameConsumerSameQueue(p, q);
      } else if p.RequestQueue? {
        RequestCollidesExactly(q);
      } else if q.RequestQueue? {
        RequestCollidesExactly(p);
      } else {
        assert SharedBy(p, q, p.consumer, q.consumer);
        ConsumersCollideExactly(p.consumer, q.consumer);
      }
    }
  }

  // ---------------------------------------------------------------------------------------------
  // Exactly when suffixed names collide
  // ---------------------------------------------------------------------------------------------

  /** A queue-name suffix is indistinguishable from a longer service name. */
  lemma SuffixCollides(stream: string, target: string, service: string, suffix: string)
    ensures QueueName(EventQueue(stream, service)) + "-" + suffix
         == QueueName(EventQueue(stream, service + "-" + suffix))
    ensures QueueName(ResponseQueue(target, service)) + "-" + suffix
         == QueueName(ResponseQueue(target, service + "-" + suffix))
    ensures RandomQueueName(TopicExchange(stream), service, suffix)
         == QueueName(EventQueue(stream, service + "-" + suffix))
  {
    assert TopicExchange(stream) + ".queue." + service + "-" + suffix
        == TopicExchange(stream) + ".queue." + (service + "-" + suffix);
    assert ResponseExchange(target) + ".queue." + service + "-" + suffix
        == ResponseExchange(target) + ".queue." + (service + "-" + suffix);
  }

  /** What dot-free suffixes and a dot-free random part append to a queue name: nothing, or a dash and more. */
  predicate IsTail(t: string) { t == "" || (|t| > 1 && t[0] == '-' && DotFree(t)) }

  /** A random part, and whatever suffixes follow it, are such a tail of the event queue. */
  lemma TransientName(stream: string, service: string, random: string, tail: string)
    ensures RandomQueueName(TopicExchange(stream), service, random) + tail
         == QueueName(EventQueue(stream, service)) + ("-" + random + tail)
    ensures random != "" && DotFree(random) && DotFree(tail) ==> IsTail("-" + random + tail)
  {
    var stem := EventQueueName(TopicExchange(stream), service);
    assert stem + "-" + random + tail == stem + ("-" + random + tail);
  }

  lemma SourceIsStem(p: QueueId, q: QueueId)
    requires p.RequestQueue? == q.RequestQueue?
    ensures SourceOf(p) == SourceOf(q) <==> Stem(p) == Stem(q)
  {
    if Stem(p) == Stem(q) {
      StemsDiffer(p, q);
    }
  }

  lemma TailedNameSplits(q: QueueId, t: string)
    ensures QueueName(q) + t == Stem(q) + "." + (LastWord(q) + t)
  {
    QueueNameSplits(q);
  }

  /** Queue names with dot-free ends are equal exactly when the queues belong to one exchange and the consumer
      names with their tails are equal. */
  lemma TailedNamesEqual(p: QueueId, t: string, q: QueueId, u: string)
    requires DotFree(LastWord(p) + t) && DotFree(LastWord(q) + u)
    ensures QueueName(p) + t == QueueName(q) + u
            <==> SourceOf(p) == SourceOf(q) && LastWord(p) + t == LastWord(q) + u
  {
    TailedNameSplits(p, t);
    TailedNameSplits(q, u);
    if QueueName(p) + t == QueueName(q) + u {
      LastDot(Stem(p), Stem(q), LastWord(p) + t, LastWord(q) + u);
      StemsDiffer(p, q);
    }
    if SourceOf(p) == SourceOf(q) {
      SourceIsStem(p, q);
    }
  }

  /** One name is the other followed by a dash and possibly more. */
  predicate DashRelated(c: string, d: string) { c + "-" <= d || d + "-" <= c }

  /** A queue of c with a tail and a queue of d with a tail, neither a request queue, have one name. */
  predicate SharedWithTails(p: QueueId, t: string, q: QueueId, u: string, c: string, d: string) {
    && !p.RequestQueue? && !q.RequestQueue? && p.consumer == c && q.consumer == d
    && IsTail(t) && IsTail(u) && QueueName(p) + t == QueueName(q) + u
  }

  ghost predicate CanCollideWithTails(c: string, d: string) {
    exists p, t, q, u :: SharedWithTails(p, t, q, u, c, d)
  }

  lemma SameLength(c: string, t: string, d: string, u: string)
    requires c + t == d + u
    ensures |c| == |d| ==> c == d && t == u
  {
    if |c| == |d| {
      assert c == (c + t)[..|c|] && t == (c + t)[|c|..];
      assert d == (d + u)[..|d|] && u == (d + u)[|d|..];
    }
  }

  lemma LongerNameHasDash(c: string, t: string, d: string, u: string)
    requires c + t == d + u && |c| < |d| && IsTail(t)
    ensures c + "-" <= d
  {
    assert (c + t)[..|d|] == d;
    assert d[..|c|] == c && d[|c|] == t[0];
  }

  lemma DashCollides(c: string, d: string)
    requires DotFree(c) && DotFree(d) && c + "-" <= d
    ensures CanCollideWithTails(c, d) && CanCollideWithTails(d, c)
  {
    var p, q, t, u := EventQueue("", c), EventQueue("", d), d[|c|..] + "-x", "-x";
    assert d == c + d[|c|..];
    assert c + t == d + u;
    TailedNamesEqual(p, t, q, u);
    assert SharedWithTails(p, t, q, u, c, d) && SharedWithTails(q, u, p, t, d, c);
  }

  /** With dot-free names and dot-free suffixes or random parts, queues of two services can share a name exactly
      when one service name is the other followed by a dash. */
  lemma TailedConsumersCollideExactly(c: string, d: string)
    requires DotFree(c) && DotFree(d) && c != d
    ensures CanCollideWithTails(c, d) <==> DashRelated(c, d)
  {
    if CanCollideWithTails(c, d) {
      var p, t, q, u :| SharedWithTails(p, t, q, u, c, d);
      TailedNamesEqual(p, t, q, u);
      SameLength(c, t, d, u);
      if |c| < |d| {
        LongerNameHasDash(c, t, d, u);
      } else {
        LongerNameHasDash(d, u, c, t);
      }
    }
    if c + "-" <= d { DashCollides(c, d); }
    if d + "-" <= c { DashCollides(d, c); }
  }

  predicate ShareName(p: QueueId, t: string, q: QueueId, u: string, consumers: set<string>) {
    && QueueOf(p, consumers) && QueueOf(q, consumers) && IsTail(t) && IsTail(u)
    && QueueName(p) + t == QueueName(q) + u
  }

  /** A queue name of these services determines the queue and what was appended to it. */
  ghost predicate UniqueTailedNames(consumers: set<string>) {
    forall p, t, q, u :: ShareName(p, t, q, u, consumers) ==> p == q && t == u
  }

  lemma SharedNameIsDashed(p: QueueId, t: string, q: QueueId, u: string, consumers: set<string>)
    requires (forall c :: c in consumers ==> DotFree(c)) && ShareName(p, t, q, u, consumers) && !(p == q && t == u)
    ensures !p.RequestQueue? && !q.RequestQueue? && p.consumer != q.consumer && DashRelated(p.consumer, q.consumer)
  {
    TailedNamesEqual(p, t, q, u);
    SameLength(LastWord(p), t, LastWord(q), u);
    assert SharedWithTails(p, t, q, u, p.consumer, q.consumer);
    TailedConsumersCollideExactly(p.consumer, q.consumer);
  }

  /** All queues of a set of dot-free services, with any dot-free suffixes and random parts, have different names
      exactly when no service name is another one followed by a dash. */
  lemma TailedNamesUniqueExactly(consumers: set<string>)
    requires forall c :: c in consumers ==> DotFree(c)
    ensures UniqueTailedNames(consumers)
            <==> forall c, d :: c in consumers && d in consumers && c != d ==> !DashRelated(c, d)
  {
    if UniqueTailedNames(consumers) {
      forall c, d | c in consumers && d in consumers && c != d
        ensures !DashRelated(c, d)
      {
        TailedConsumersCollideExactly(c, d);
        if p, t, q, u :| SharedWithTails(p, t, q, u, c, d) {
          assert ShareName(p, t, q, u, consumers);
        }
      }
    } else {
      var p, t, q, u :| ShareName(p, t, q, u, consumers) && !(p == q && t == u);
      SharedNameIsDashed(p, t, q, u, consumers);
    }
  }

  /** With dots in a suffix nothing is left of this: any consumer can be given a suffix under which its queue has
      the name of a queue of any other. */
  lemma DottedSuffixCollides(stream: string, c: string, d: string, x: string)
    ensures QueueName(EventQueue(stream, c)) + ("-" + x + EVENT_TAIL + d)
         == QueueName(EventQueue(stream + EVENT_TAIL + c + "-" + x, d))
  {
    QueueNameParts(EventQueue(stream, c));
    QueueNameParts(EventQueue(stream + EVENT_TAIL + c + "-" + x, d));
    Reassociate(stream + EVENT_TAIL, c, "-" + x, EVENT_TAIL, d);
    assert stream + EVENT_TAIL + c + ("-" + x) == stream + EVENT_TAIL + c + "-" + x;
  }

  /** Trimming the exchange from a name built on it recovers what was appended after the dot. */
  lemma TrimRecovers(exchange: string, rest: string)
    ensures TrimExchange(exchange + "." + rest, exchange) == rest
  {
    assert (exchange + "." + rest)[..|exchange|] == exchange;
    assert (exchange + "." + rest)[|exchange|..] == "." + rest;
    assert ("." + rest)[1..] == rest;
  }

  lemma TrimWord(exchange: string, service: string, tail: string)
    ensures TrimExchange(exchange + ".queue." + service + tail, exchange) == "queue." + service + tail
    ensures TrimExchange(exchange + ".queue" + tail, exchange) == "queue" + tail
  {
    var long, short := "queue." + service + tail, "queue" + tail;
    assert exchange + ".queue." + service + tail == exchange + "." + long;
    assert exchange + ".queue" + tail == exchange + "." + short;
    TrimRecovers(exchange, long);
    TrimRecovers(exchange, short);
  }

  /** Applied to the queue builders, with any suffix. */
  lemma TrimQueueNames(stream: string, target: string, service: string, tail: string)
    ensures TrimExchange(EventQueueName(TopicExchange(stream), service) + tail, TopicExchange(stream))
         == "queue." + service + tail
    ensures TrimExchange(ResponseQueueName(target, service) + tail, ResponseExchange(target))
         == "queue." + service + tail
    ensures TrimExchange(RequestQueueName(service) + tail, RequestExchange(service)) == "queue" + tail
  {
    TrimWord(TopicExchange(stream), service, tail);
    TrimWord(ResponseExchange(target), service, tail);
    TrimWord(RequestExchange(service), service, tail);
  }
}
