/** The publisher object, the headers it puts on the wire, and what the consuming side reads back. */
module Publishing {
  import opened Basics
  import opened Headers
  import P = ConfirmProtocol

  const CONTENT_TYPE := "application/json"
  const SPEC_VERSION := "1.0"

  datatype Message = Message(exchange: string, key: string, headers: Table, body: string)

  /** Clock, random source, trace propagation and network, as one call meets them. */
  datatype Env = Env(now: string, freshId: string, carrier: map<string, string>, sendFails: bool)

  // ---------------------------------------------------------------------------------------------
  // Header construction in publishMessage
  // ---------------------------------------------------------------------------------------------

  function SetDefault(t: Table, attr: string, v: string): Table {
    if WireKey(attr) in t then t else t[WireKey(attr) := Str(v)]
  }

  /** The message id: a non-empty string supplied under `cloudEvents:id`, else the fresh one. */
  function MessageId(t: Table, freshId: string): string {
    if WireKey("id") in t && t[WireKey("id")].Str? && t[WireKey("id")].s != "" then t[WireKey("id")].s
    else freshId
  }

  function Stamped(t: Table, routingKey: string, source: string, env: Env): Table {
    var t1 := SetDefault(t, "specversion", SPEC_VERSION);
    var t2 := SetDefault(t1, "type", routingKey);
    var t3 := SetDefault(t2, "source", source);
    var t4 := SetDefault(t3, "datacontenttype", CONTENT_TYPE);
    var t5 := SetDefault(t4, "time", env.now);
    t5[WireKey("id") := Str(MessageId(t5, env.freshId))]
  }

  /** The headers of the published message. */
  function WireHeaders(table: Table, routingKey: string, source: string, env: Env): Table {
    Stamped(Normalized(table), routingKey, source, env) + AsTable(env.carrier)
  }

  /** The message publishMessage hands to the broker, if it gets that far. */
  function Outgoing(body: Option<string>, routingKey: string, exchange: string, source: string, table: Table, env: Env)
    : Option<Message>
  {
    if body.None? || env.sendFails then None
    else Some(Message(exchange, routingKey, WireHeaders(table, routingKey, source, env), body.value))
  }

  /** publishMessage; `body` is the JSON encoding of the payload, None when marshalling fails. */
  method PublishMessage(body: Option<string>, routingKey: string, exchange: string, source: string,
                        table: Table, env: Env)
    returns (err: Option<P.Reason>, sent: Option<Message>)
    ensures err == if body.None? then Some(P.MarshalFailed) else if env.sendFails then Some(P.SendFailed) else None
    ensures sent.Some? <==> err.None?
    ensures sent == Outgoing(body, routingKey, exchange, source, table, env)
  {
    if body.None? {
      return Some(P.MarshalFailed), None;
    }
    var headers := NormalizeInPlace(table);
    headers := SetDefault(headers, "specversion", SPEC_VERSION);
    headers := SetDefault(headers, "type", routingKey);
    headers := SetDefault(headers, "source", source);
    headers := SetDefault(headers, "datacontenttype", CONTENT_TYPE);
    headers := SetDefault(headers, "time", env.now);
    var messageId := env.freshId;
    if WireKey("id") in headers && headers[WireKey("id")].Str? && headers[WireKey("id")].s != "" {
      messageId := headers[WireKey("id")].s;
    }
    headers := headers[WireKey("id") := Str(messageId)];
    headers := headers + AsTable(env.carrier);
    if env.sendFails {
      return Some(P.SendFailed), None;
    }
    return None, Some(Message(exchange, routingKey, headers, body.value));
  }

  // ---------------------------------------------------------------------------------------------
  // The Publisher object
  // ---------------------------------------------------------------------------------------------

  datatype SetupError = InvalidHeader(error: HeaderError) | ConfirmModeFailed

  /** What the select on the confirmation channel yields. */
  datatype Event = Confirmation(ack: bool) | ChannelClosed | ContextDone

  class Publisher {
    var wired: bool                  // channel != nil
    var exchange: string
    var serviceName: string
    var defaultHeaders: seq<Header>
    var confirms: bool               // confirmCh != nil
    const noConfirm: bool

    /** The default headers end with the service header and contain no other reserved key. */
    ghost predicate Wired()
      reads this
    {
      && wired
      && defaultHeaders != []
      && defaultHeaders[|defaultHeaders|-1] == Header(SERVICE, Str(serviceName))
      && Accepted(defaultHeaders[..|defaultHeaders|-1])
    }

    /** NewPublisher; `ownChannel` says WithConfirm supplied a confirmation channel. */
    constructor (noConfirm: bool, ownChannel: bool)
      ensures !wired && this.noConfirm == noConfirm && confirms == ownChannel
    {
      this.noConfirm := noConfirm;
      wired, exchange, serviceName, defaultHeaders, confirms := false, "", "", [], ownChannel;
    }

    /** Publisher.setup: invalid headers leave the publisher untouched; a failing confirm.select
        is reported after the fields are set. */
    method Setup(serviceName: string, exchange: string, headers: seq<Header>, confirmFails: bool)
      returns (err: Option<SetupError>)
      modifies this
      ensures err.Some? && err.value.InvalidHeader? <==> !Accepted(headers)
      ensures !Accepted(headers) ==> unchanged(this)
      ensures Accepted(headers) ==>
                && Wired() && this.exchange == exchange && this.serviceName == serviceName
                && defaultHeaders == headers + [Header(SERVICE, Str(serviceName))]
                && confirms == (old(confirms) || !noConfirm)
                && (err == Some(ConfirmModeFailed) <==> !noConfirm && confirmFails)
    {
      for i := 0 to |headers|
        invariant Accepted(headers[..i])
        invariant unchanged(this)
      {
        var e := ValidateKey(headers[i]);
        if e.Some? {
          return Some(InvalidHeader(e.value));
        }
      }
      assert headers[..|headers|] == headers;
      defaultHeaders := headers + [Header(SERVICE, Str(serviceName))];
      assert defaultHeaders[..|headers|] == headers;
      wired, this.exchange, this.serviceName := true, exchange, serviceName;
      if !noConfirm {
        confirms := true;
        if confirmFails {
          return Some(ConfirmModeFailed);
        }
      }
      return None;
    }

    /** Publish. `event` is what the select yields if it is reached; the call takes the protocol
        steps of P.Script for the returned ending. */
    method Publish(routingKey: string, body: Option<string>, headers: seq<Header>, env: Env, event: Event)
      returns (result: P.Outcome, sent: Option<Message>, ghost ending: P.Ending)
      requires Wired()
      ensures P.EndingFits(P.Config(1, confirms), P.Publish, ending) && result == P.EndResult(ending)
      ensures sent.Some? <==>
                && (forall i :: 0 <= i < |headers| ==> headers[i].key != "" && headers[i].key != "service")
                && body.Some? && !env.sendFails
      ensures sent.Some? <==> !ending.Rejected?
      ensures result.Nil? <==> sent.Some? && (confirms ==> event == Confirmation(true))
      ensures sent.None? ==>
                result == P.Failed(if !Accepted(headers) then P.BadHeader
                                   else if body.None? then P.MarshalFailed else P.SendFailed)
      ensures sent.Some? && result.Failed? ==> result.reason == if event.ContextDone? then P.Cancelled else P.Nacked
      ensures sent.Some? ==>
                exists table :: HoldsLastWrites(table, defaultHeaders + headers)
                                && sent.value == Message(exchange, routingKey,
                                                         WireHeaders(table, routingKey, serviceName, env), body.value)
    {
      var headerError, table := CollectHeaders(defaultHeaders, headers);
      if headerError.Some? {
        return P.Failed(P.BadHeader), None, P.Rejected(P.BadHeader);
      }
      var err;
      err, sent := PublishMessage(body, routingKey, exchange, serviceName, table, env);
      if err.Some? {
        return P.Failed(err.value), None, P.Rejected(err.value);
      }
      result, ending := AwaitConfirm(P.Publish, event, confirms);
    }

    /** OutboxRawPublisher.PublishRaw on this publisher. It neither validates nor completes the
        headers, and unlike Publish it reports a publisher that was never wired. */
    method PublishRaw(routingKey: string, payload: string, headers: map<string, string>, sendFails: bool, event: Event)
      returns (result: P.Outcome, sent: Option<Message>, ghost ending: P.Ending)
      ensures P.EndingFits(P.Config(1, confirms), P.PublishRaw, ending) && result == P.EndResult(ending)
      ensures sent.Some? <==> wired && !sendFails
      ensures sent.Some? <==> !ending.Rejected?
      ensures result.Nil? <==> sent.Some? && (confirms ==> event == Confirmation(true))
      ensures result == P.Failed(P.NotInitialized) <==> !wired
      ensures wired && sendFails ==> result == P.Failed(P.SendFailed)
      ensures sent.Some? && result.Failed? ==> result.reason == if event.ContextDone? then P.Cancelled else P.Nacked
      ensures sent.Some? ==>
                exists order :: IsOrder(headers.Keys, order)
                                && sent.value == Message(exchange, routingKey, OutboxFold(headers, order), payload)
    {
      if !wired {
        return P.Failed(P.NotInitialized), None, P.Rejected(P.NotInitialized);
      }
      ghost var order;
      var table;
      table, order := OutboxTable(headers);
      if sendFails {
        return P.Failed(P.SendFailed), None, P.Rejected(P.SendFailed);
      }
      sent := Some(Message(exchange, routingKey, table, payload));
      result, ending := AwaitConfirm(P.PublishRaw, event, confirms);
    }
  }

  /** The tail both entry points share: wait on the confirmation channel if there is one. A closed
      channel yields a confirmation whose Ack is false. */
  method AwaitConfirm(entry: P.Entry, event: Event, confirms: bool) returns (result: P.Outcome, ghost ending: P.Ending)
    ensures P.EndingFits(P.Config(1, confirms), entry, ending) && !ending.Rejected? && result == P.EndResult(ending)
    ensures result.Nil? <==> (confirms ==> event == Confirmation(true))
    ensures result.Failed? ==> result.reason == if event.ContextDone? then P.Cancelled else P.Nacked
  {
    if !confirms {
      return P.Nil, P.Unconfirmed;
    }
    match event
    case Confirmation(ack) =>
      return if ack then P.Nil else P.Failed(P.Nacked), P.GotConfirm(ack);
    case ChannelClosed =>
      return P.Failed(P.Nacked), P.GotClosed;
    case ContextDone =>
      return P.Failed(P.Cancelled), P.GotCancel;
  }

  // ---------------------------------------------------------------------------------------------
  // The service header
  // ---------------------------------------------------------------------------------------------

  /** Default headers as setup leaves them. */
  ghost predicate Defaults(defaults: seq<Header>, serviceName: string) {
    && defaults != []
    && defaults[|defaults|-1] == Header(SERVICE, Str(serviceName))
  }

  /** For every header list Publish accepts, the `service` header on the wire is the publisher's
      service name, unless (and only unless) the trace carrier overwrites it with something else. */
  lemma ServiceHeaderIntegrity(defaults: seq<Header>, serviceName: string, headers: seq<Header>, table: Table,
                               routingKey: string, env: Env)
    requires Defaults(defaults, serviceName) && Accepted(headers)
    requires HoldsLastWrites(table, defaults + headers)
    ensures
      var wire := WireHeaders(table, routingKey, serviceName, env);
      && SERVICE in wire
      && (wire[SERVICE] == Str(serviceName)
          <==> (SERVICE in env.carrier ==> env.carrier[SERVICE] == serviceName))
  {
    var front := defaults[..|defaults|-1];
    assert defaults == front + [defaults[|defaults|-1]];
    LastWriteAppend(front, defaults[|defaults|-1], SERVICE);
    LastWriteEarlier(defaults, headers, SERVICE);
    assert SERVICE in table && table[SERVICE] == Str(serviceName);
    assert SERVICE[0] == 's' && CE[0] == 'c' && WIRE[0] == 'c';
    StampedElsewhere(Normalized(table), routingKey, serviceName, env, SERVICE);
  }

  /** Stamping touches only `cloudEvents:` keys. */
  lemma StampedElsewhere(t: Table, routingKey: string, source: string, env: Env, k: string)
    requires !(WIRE <= k)
    ensures
      var r := Stamped(t, routingKey, source, env);
      k in r <==> k in t
    ensures k in t ==> Stamped(t, routingKey, source, env)[k] == t[k]
  {
    assert WIRE <= WireKey("specversion") && WIRE <= WireKey("type") && WIRE <= WireKey("source")
        && WIRE <= WireKey("datacontenttype") && WIRE <= WireKey("time") && WIRE <= WireKey("id");
  }

  // ---------------------------------------------------------------------------------------------
  // Round trip to the consumer
  // ---------------------------------------------------------------------------------------------

  /** The value the caller gave attribute `attr`: the `cloudEvents:` spelling wins over `ce-`. */
  function UserAttr(all: seq<Header>, attr: string): Option<Value> {
    if LastWrite(all, WireKey(attr)).Some? then LastWrite(all, WireKey(attr)) else LastWrite(all, CeKey(attr))
  }

  function DefaultAttr(attr: string, routingKey: string, source: string, env: Env): Option<string> {
    if attr == "specversion" then Some("1.0")
    else if attr == "type" then Some(routingKey)
    else if attr == "source" then Some(source)
    else if attr == "datacontenttype" then Some("application/json")
    else if attr == "time" then Some(env.now)
    else None
  }

  /** The value of attribute `attr` that the consumer must see. */
  function ExpectedAttr(all: seq<Header>, attr: string, routingKey: string, source: string, env: Env): Option<Value> {
    var given := UserAttr(all, attr);
    if attr == "id" then
      Some(if given.Some? && given.value.Str? && given.value.s != "" then given.value else Str(env.freshId))
    else if given.Some? then given
    else match DefaultAttr(attr, routingKey, source, env)
      case Some(v) => Some(Str(v))
      case None => None
  }

  predicate IsCeLike(k: string) { CE <= k || WIRE <= k || JMS <= k }

  /** The trace carrier carries no CloudEvents attribute under any spelling. */
  ghost predicate PlainCarrier(env: Env) {
    forall k :: k in env.carrier ==> !IsCeLike(k)
  }

  lemma WireKeyInjective(x: string, y: string)
    requires WireKey(x) == WireKey(y)
    ensures x == y
  {
    assert WireKey(x)[|WIRE|..] == x && WireKey(y)[|WIRE|..] == y;
  }

  lemma NormalizedAttr(table: Table, all: seq<Header>, attr: string)
    requires HoldsLastWrites(table, all)
    ensures WireKey(attr) in Normalized(table) <==> UserAttr(all, attr).Some?
    ensures UserAttr(all, attr).Some? ==> Normalized(table)[WireKey(attr)] == UserAttr(all, attr).value
  {
    var w, c := WireKey(attr), CeKey(attr);
    PrefixesDiffer(attr, attr);
    assert LastWrite(all, w).Some? <==> w in table;
    assert LastWrite(all, c).Some? <==> c in table;
    if c in table {
      assert IsCe(c) && WireKey(c[|CE|..]) == w;
      assert w in NormalKeys(table);
    }
    if w in NormalKeys(table) {
      WireOrigin(table, w);
    }
  }

  /** setDefault for the other attributes does not disturb attribute `attr`. */
  lemma SetDefaultOther(t: Table, attr: string, v: string, other: string)
    requires other != attr
    ensures WireKey(other) in SetDefault(t, attr, v) <==> WireKey(other) in t
    ensures WireKey(other) in t ==> SetDefault(t, attr, v)[WireKey(other)] == t[WireKey(other)]
  {
    if WireKey(other) == WireKey(attr) {
      WireKeyInjective(other, attr);
    }
  }

  lemma StampedAttr(t: Table, routingKey: string, source: string, env: Env, attr: string)
    ensures
      var r := Stamped(t, routingKey, source, env);
      var w := WireKey(attr);
      if attr == "id" then w in r && r[w] == Str(MessageId(t, env.freshId))
      else if w in t then w in r && r[w] == t[w]
      else match DefaultAttr(attr, routingKey, source, env)
        case Some(v) => w in r && r[w] == Str(v)
        case None => w !in r
  {
    var t1 := SetDefault(t, "specversion", SPEC_VERSION);
    var t2 := SetDefault(t1, "type", routingKey);
    var t3 := SetDefault(t2, "source", source);
    var t4 := SetDefault(t3, "datacontenttype", CONTENT_TYPE);
    if attr != "specversion" { SetDefaultOther(t, "specversion", SPEC_VERSION, attr); }
    if attr != "type" { SetDefaultOther(t1, "type", routingKey, attr); }
    if attr != "source" { SetDefaultOther(t2, "source", source, attr); }
    if attr != "datacontenttype" { SetDefaultOther(t3, "datacontenttype", CONTENT_TYPE, attr); }
    if attr != "time" { SetDefaultOther(t4, "time", env.now, attr); }
    if attr != "id" && WireKey(attr) == WireKey("id") { WireKeyInjective(attr, "id"); }
  }

  /** Each attribute on the wire has exactly its expected value. */
  lemma WireAttr(table: Table, all: seq<Header>, routingKey: string, source: string, env: Env, attr: string)
    requires HoldsLastWrites(table, all) && PlainCarrier(env)
    ensures
      var wire := WireHeaders(table, routingKey, source, env);
      match ExpectedAttr(all, attr, routingKey, source, env)
      case Some(v) => WireKey(attr) in wire && wire[WireKey(attr)] == v
      case None => WireKey(attr) !in wire
  {
    NormalizedAttr(table, all, attr);
    StampedAttr(Normalized(table), routingKey, source, env, attr);
    assert IsCeLike(WireKey(attr));
  }

  function JmsKey(attr: string): string { JMS + attr }

  /** spec.NormalizeCEHeaders as the consumer relies on it: the key each header gets. */
  function CanonicalKey(k: string): string {
    if WIRE <= k then CeKey(k[|WIRE|..]) else if JMS <= k then CeKey(k[|JMS|..]) else k
  }

  /** Some header of h has canonical key c and value v. */
  ghost predicate Origin(h: Table, c: string, v: Value) {
    exists k :: k in h && CanonicalKey(k) == c && h[k] == v
  }

  /** The hypothesis on spec.NormalizeCEHeaders, which belongs to another module: it renames each header to
      its canonical key; where several headers compete for one, it keeps the value of one of them. */
  ghost predicate Normalizes(f: Table -> Table) {
    forall h: Table ::
      && (forall k :: k in h ==> CanonicalKey(k) in f(h))
      && (forall c :: c in f(h) ==> Origin(h, c, f(h)[c]))
  }

  /** The attributes Publish always sets. */
  predicate IsStandard(attr: string) {
    || attr == "specversion" || attr == "type" || attr == "source"
    || attr == "datacontenttype" || attr == "time" || attr == "id"
  }

  ghost predicate Complete(h: Table) {
    forall a :: IsStandard(a) ==> CeKey(a) in h
  }

  /** The hypothesis on spec.HasCEHeaders: it accepts a table with all six standard attributes. */
  ghost predicate RecognisesComplete(has: Table -> bool) {
    forall h: Table :: Complete(h) ==> has(h)
  }

  /** The three spellings of an attribute are told apart by their prefix. */
  lemma SpellingsDiffer(x: string)
    ensures !(CE <= WireKey(x)) && !(JMS <= WireKey(x)) && CanonicalKey(WireKey(x)) == CeKey(x)
    ensures !(CE <= JmsKey(x)) && !(WIRE <= JmsKey(x)) && CanonicalKey(JmsKey(x)) == CeKey(x)
    ensures !(WIRE <= CeKey(x)) && !(JMS <= CeKey(x)) && CanonicalKey(CeKey(x)) == CeKey(x)
  {
    assert WireKey(x)[1] == 'l' && JmsKey(x)[1] == 'l' && CeKey(x)[1] == 'e';
    assert WireKey(x)[11] == ':' && JmsKey(x)[11] == '_';
    assert WireKey(x)[|WIRE|..] == x && JmsKey(x)[|JMS|..] == x;
  }

  /** A header with canonical key `ce-attr` has one of the three spellings. */
  lemma SpellingOf(k: string, attr: string)
    requires CanonicalKey(k) == CeKey(attr)
    ensures k == WireKey(attr) || k == JmsKey(attr) || k == CeKey(attr)
  {
    if WIRE <= k {
      assert CeKey(k[|WIRE|..])[|CE|..] == CeKey(attr)[|CE|..];
    } else if JMS <= k {
      assert CeKey(k[|JMS|..])[|CE|..] == CeKey(attr)[|CE|..];
    }
  }

  /** On the wire no attribute is spelled with `ce-`, and a `cloudEvents_` header is the caller's own. */
  lemma WireSpellings(table: Table, all: seq<Header>, routingKey: string, source: string, env: Env, attr: string)
    requires HoldsLastWrites(table, all) && PlainCarrier(env)
    ensures
      var wire := WireHeaders(table, routingKey, source, env);
      && CeKey(attr) !in wire
      && (JmsKey(attr) in wire <==> LastWrite(all, JmsKey(attr)).Some?)
      && (JmsKey(attr) in wire ==> wire[JmsKey(attr)] == LastWrite(all, JmsKey(attr)).value)
  {
    SpellingsDiffer(attr);
    assert IsCeLike(CeKey(attr)) && IsCeLike(JmsKey(attr));
    StampedElsewhere(Normalized(table), routingKey, source, env, CeKey(attr));
    StampedElsewhere(Normalized(table), routingKey, source, env, JmsKey(attr));
    assert LastWrite(all, JmsKey(attr)).Some? <==> JmsKey(attr) in table;
    if JmsKey(attr) in Normalized(table) {
      WireOrigin(table, JmsKey(attr));
    }
  }

  /** The attribute as a consumer finds it in a normalised table. */
  function Seen(h: Table, attr: string): Option<Value> {
    if CeKey(attr) in h then Some(h[CeKey(attr)]) else None
  }

  /** A normalised table with no `ce-` header has an attribute from one of the other spellings. */
  lemma SeenAttr(f: Table -> Table, h: Table, attr: string)
    requires Normalizes(f) && CeKey(attr) !in h
    ensures CeKey(attr) in f(h) <==> WireKey(attr) in h || JmsKey(attr) in h
    ensures CeKey(attr) in f(h) ==>
              || (WireKey(attr) in h && f(h)[CeKey(attr)] == h[WireKey(attr)])
              || (JmsKey(attr) in h && f(h)[CeKey(attr)] == h[JmsKey(attr)])
  {
    SpellingsDiffer(attr);
    if CeKey(attr) in f(h) {
      var k :| k in h && CanonicalKey(k) == CeKey(attr) && h[k] == f(h)[CeKey(attr)];
      SpellingOf(k, attr);
    }
  }

  /** Publish-to-consume round trip. After the consumer's normalisation the attribute `attr` is present
      exactly when it is expected or the caller also gave it in the JMS spelling `cloudEvents_`; its value is
      the expected one, or else that of the JMS spelling. A message id is never empty. */
  lemma RoundTrip(f: Table -> Table, table: Table, all: seq<Header>, routingKey: string, source: string, env: Env,
                  attr: string)
    requires Normalizes(f)
    requires HoldsLastWrites(table, all) && PlainCarrier(env)
    ensures
      var seen := f(WireHeaders(table, routingKey, source, env));
      var expected, rival := ExpectedAttr(all, attr, routingKey, source, env), LastWrite(all, JmsKey(attr));
      && (CeKey(attr) in seen <==> expected.Some? || rival.Some?)
      && (CeKey(attr) in seen ==> Some(seen[CeKey(attr)]) == expected || Some(seen[CeKey(attr)]) == rival)
      && (attr == "id" && rival.None? && env.freshId != "" ==>
            CeKey(attr) in seen && seen[CeKey(attr)].Str? && seen[CeKey(attr)].s != "")
  {
    var wire := WireHeaders(table, routingKey, source, env);
    WireAttr(table, all, routingKey, source, env, attr);
    WireSpellings(table, all, routingKey, source, env, attr);
    SeenAttr(f, wire, attr);
  }

  lemma StandardIsExpected(all: seq<Header>, attr: string, routingKey: string, source: string, env: Env)
    requires IsStandard(attr)
    ensures ExpectedAttr(all, attr, routingKey, source, env).Some?
  {
  }

  /** Everything published by Publish is recognised as a CloudEvent: all six standard attributes
      are present, so the consumer never takes the legacy branch. */
  lemma NeverLegacy(f: Table -> Table, has: Table -> bool, table: Table, all: seq<Header>, routingKey: string,
                    source: string, env: Env)
    requires Normalizes(f) && RecognisesComplete(has)
    requires HoldsLastWrites(table, all) && PlainCarrier(env)
    ensures has(f(WireHeaders(table, routingKey, source, env)))
  {
    var seen := f(WireHeaders(table, routingKey, source, env));
    forall a | IsStandard(a)
      ensures CeKey(a) in seen
    {
      RoundTrip(f, table, all, routingKey, source, env, a);
      StandardIsExpected(all, a, routingKey, source, env);
    }
  }

  /** Normalisation passes headers outside the CloudEvents namespaces through. */
  lemma PassesOthers(f: Table -> Table, h: Table, k: string)
    requires Normalizes(f) && !IsCeLike(k)
    ensures (k in f(h) <==> k in h) && (k in h ==> f(h)[k] == h[k])
  {
    assert CanonicalKey(k) == k;
    if k in f(h) {
      var l :| l in h && CanonicalKey(l) == k && h[l] == f(h)[k];
      assert WIRE <= l || JMS <= l ==> CE <= CanonicalKey(l);
    }
  }

  /** Headers outside the CloudEvents namespaces reach the consumer as they were last written, unless
      the trace carrier uses the same key. */
  lemma PlainHeaderRoundTrip(f: Table -> Table, table: Table, all: seq<Header>, routingKey: string, source: string,
                             env: Env, k: string)
    requires Normalizes(f) && HoldsLastWrites(table, all) && !IsCeLike(k)
    ensures
      var seen := f(WireHeaders(table, routingKey, source, env));
      if k in env.carrier then k in seen && seen[k] == Str(env.carrier[k])
      else if LastWrite(all, k).Some? then k in seen && seen[k] == LastWrite(all, k).value
      else k !in seen
  {
    PassesOthers(f, WireHeaders(table, routingKey, source, env), k);
    StampedElsewhere(Normalized(table), routingKey, source, env, k);
    assert LastWrite(all, k).Some? <==> k in table;
    if k in Normalized(table) {
      WireOrigin(table, k);
    }
  }

  // ---------------------------------------------------------------------------------------------
  // Two normalisations that meet the hypothesis
  // ---------------------------------------------------------------------------------------------

  function CanonicalKeys(h: Table): set<string> { set k | k in h :: CanonicalKey(k) }

  /** Renaming that prefers `ce-`, then `cloudEvents:`, then `cloudEvents_`. */
  function WireFirst(h: Table): Table {
    map c | c in CanonicalKeys(h) ::
      if c in h then h[c]
      else if CE <= c && WireKey(c[|CE|..]) in h then h[WireKey(c[|CE|..])]
      else if CE <= c && JmsKey(c[|CE|..]) in h then h[JmsKey(c[|CE|..])]
      else Str("")
  }

  /** Renaming that prefers `cloudEvents_`. */
  function JmsFirst(h: Table): Table {
    map c | c in CanonicalKeys(h) ::
      if CE <= c && JmsKey(c[|CE|..]) in h then h[JmsKey(c[|CE|..])] else WireFirst(h)[c]
  }

  lemma WireFirstOrigin(h: Table, k: string)
    requires k in h
    ensures Origin(h, CanonicalKey(k), WireFirst(h)[CanonicalKey(k)])
  {
    var c := CanonicalKey(k);
    if CE <= c {
      SpellingsDiffer(c[|CE|..]);
      assert c == CeKey(c[|CE|..]);
      SpellingOf(k, c[|CE|..]);
    } else {
      assert c == k;
    }
  }

  lemma JmsFirstOrigin(h: Table, k: string)
    requires k in h
    ensures Origin(h, CanonicalKey(k), JmsFirst(h)[CanonicalKey(k)])
  {
    WireFirstOrigin(h, k);
    var c := CanonicalKey(k);
    if CE <= c {
      SpellingsDiffer(c[|CE|..]);
      assert c == CeKey(c[|CE|..]);
    }
  }

  /** The hypothesis on NormalizeCEHeaders can be met, in more than one way. */
  lemma SamplesNormalize()
    ensures Normalizes(WireFirst) && Normalizes(JmsFirst)
  {
    forall h: Table, k | k in h
      ensures Origin(h, CanonicalKey(k), WireFirst(h)[CanonicalKey(k)])
      ensures Origin(h, CanonicalKey(k), JmsFirst(h)[CanonicalKey(k)])
    {
      WireFirstOrigin(h, k);
      JmsFirstOrigin(h, k);
    }
  }

  /** A `cloudEvents_` header can win over the expected attribute. */
  lemma RivalCanWin(table: Table, all: seq<Header>, routingKey: string, source: string, env: Env, attr: string)
    requires HoldsLastWrites(table, all) && PlainCarrier(env) && LastWrite(all, JmsKey(attr)).Some?
    ensures Seen(JmsFirst(WireHeaders(table, routingKey, source, env)), attr) == LastWrite(all, JmsKey(attr))
  {
    WireSpellings(table, all, routingKey, source, env, attr);
    SpellingsDiffer(attr);
    assert CeKey(attr)[|CE|..] == attr;
  }

  /** Whatever the admissible normalisation, the consumer sees what is expected. */
  ghost predicate AlwaysExact(wire: Table, attr: string, expected: Option<Value>) {
    forall f: Table -> Table :: Normalizes(f) ==> Seen(f(wire), attr) == expected
  }

  lemma OneSuffices(f: Table -> Table, wire: Table, attr: string, expected: Option<Value>)
    requires Normalizes(f) && Seen(f(wire), attr) != expected
    ensures !AlwaysExact(wire, attr, expected)
  {
  }

  lemma SeenAsExpected(f: Table -> Table, table: Table, all: seq<Header>, routingKey: string, source: string, env: Env,
                       attr: string)
    requires Normalizes(f) && HoldsLastWrites(table, all) && PlainCarrier(env)
    requires
      var expected, rival := ExpectedAttr(all, attr, routingKey, source, env), LastWrite(all, JmsKey(attr));
      rival.None? || rival == expected
    ensures Seen(f(WireHeaders(table, routingKey, source, env)), attr)
         == ExpectedAttr(all, attr, routingKey, source, env)
  {
    RoundTrip(f, table, all, routingKey, source, env, attr);
  }

  /** The round trip is exact for every admissible normalisation exactly when the caller gave the attribute no
      `cloudEvents_` spelling, or gave it the expected value there. */
  lemma RoundTripExactly(table: Table, all: seq<Header>, routingKey: string, source: string, env: Env, attr: string)
    requires HoldsLastWrites(table, all) && PlainCarrier(env)
    ensures
      var expected, rival := ExpectedAttr(all, attr, routingKey, source, env), LastWrite(all, JmsKey(attr));
      AlwaysExact(WireHeaders(table, routingKey, source, env), attr, expected) <==> rival.None? || rival == expected
  {
    var wire := WireHeaders(table, routingKey, source, env);
    var expected, rival := ExpectedAttr(all, attr, routingKey, source, env), LastWrite(all, JmsKey(attr));
    if rival.None? || rival == expected {
      forall f: Table -> Table | Normalizes(f)
        ensures Seen(f(wire), attr) == expected
      {
        SeenAsExpected(f, table, all, routingKey, source, env, attr);
      }
    } else {
      SamplesNormalize();
      RivalCanWin(table, all, routingKey, source, env, attr);
      OneSuffices(JmsFirst, wire, attr, expected);
    }
  }
}
