/** Message headers: reserved keys, the table `Publish` builds, and the two rewrites of CloudEvents
    attributes from the `ce-` form to the AMQP binding's `cloudEvents:` form. */
module Headers {
  import opened Basics

  const SERVICE := "service"
  const CE := "ce-"
  const WIRE := "cloudEvents:"
  const JMS := "cloudEvents_"

  datatype Header = Header(key: string, value: Value)

  datatype HeaderError = EmptyKey | ReservedKey(key: string)

  predicate IsCe(k: string) { CE <= k }
  function CeKey(attr: string): string { CE + attr }
  /** spec.AMQPCEHeaderKey */
  function WireKey(attr: string): string { WIRE + attr }

  /** Header.validateKey */
  function ValidateKey(h: Header): Option<HeaderError> {
    if h.key == "" then Some(EmptyKey)
    else if h.key == SERVICE then Some(ReservedKey(h.key))
    else None
  }

  /** Any key but the empty one and the reserved one. */
  predicate Accepted(headers: seq<Header>) {
    forall i :: 0 <= i < |headers| ==> headers[i].key != "" && headers[i].key != "service"
  }

  /** The error a rejected key gets. */
  predicate IsErrorFor(e: HeaderError, key: string) {
    match e
    case EmptyKey => key == ""
    case ReservedKey(k) => k == key == "service"
  }

  /** The last value written for key k, as successive map assignments leave it. */
  function LastWrite(headers: seq<Header>, k: string): Option<Value> {
    if headers == [] then None
    else if headers[|headers|-1].key == k then Some(headers[|headers|-1].value)
    else LastWrite(headers[..|headers|-1], k)
  }

  /** t holds exactly the last write of every key of `headers`. */
  ghost predicate HoldsLastWrites(t: Table, headers: seq<Header>) {
    forall k :: match LastWrite(headers, k)
                case Some(v) => k in t && t[k] == v
                case None => k !in t
  }

  lemma LastWriteAppend(headers: seq<Header>, h: Header, k: string)
    ensures LastWrite(headers + [h], k) == if h.key == k then Some(h.value) else LastWrite(headers, k)
  {
    assert (headers + [h])[..|headers|] == headers;
  }

  lemma AppendKeepsLastWrites(t: Table, headers: seq<Header>, h: Header)
    requires HoldsLastWrites(t, headers)
    ensures HoldsLastWrites(t[h.key := h.value], headers + [h])
  {
    forall k
      ensures match LastWrite(headers + [h], k)
              case Some(v) => k in t[h.key := h.value] && t[h.key := h.value][k] == v
              case None => k !in t[h.key := h.value]
    {
      LastWriteAppend(headers, h, k);
    }
  }

  /** A key that is not among the later headers keeps the value of the earlier ones. */
  lemma {:induction false} LastWriteEarlier(a: seq<Header>, b: seq<Header>, k: string)
    requires forall i :: 0 <= i < |b| ==> b[i].key != k
    ensures LastWrite(a + b, k) == LastWrite(a, k)
  {
    if b == [] {
      assert a + b == a;
    } else {
      var n := |b| - 1;
      assert a + b == (a + b[..n]) + [b[n]];
      LastWriteAppend(a + b[..n], b[n], k);
      LastWriteEarlier(a, b[..n], k);
    }
  }

  /** The two loops at the head of Publish: default headers first, then the caller's headers, each
      validated before it is stored. Rejection names the first offending header. */
  method CollectHeaders(defaults: seq<Header>, headers: seq<Header>)
    returns (err: Option<HeaderError>, table: Table)
    ensures err.None? <==> forall i :: 0 <= i < |headers| ==> headers[i].key != "" && headers[i].key != "service"
    ensures err.None? ==> HoldsLastWrites(table, defaults + headers)
    ensures err.Some? ==> exists i :: 0 <= i < |headers| && Accepted(headers[..i])
                                      && IsErrorFor(err.value, headers[i].key)
  {
    table := map[];
    for i := 0 to |defaults|
      invariant HoldsLastWrites(table, defaults[..i])
    {
      AppendKeepsLastWrites(table, defaults[..i], defaults[i]);
      assert defaults[..i+1] == defaults[..i] + [defaults[i]];
      table := table[defaults[i].key := defaults[i].value];
    }
    assert defaults[..|defaults|] == defaults == defaults + headers[..0];
    for i := 0 to |headers|
      invariant Accepted(headers[..i])
      invariant HoldsLastWrites(table, defaults + headers[..i])
    {
      err := ValidateKey(headers[i]);
      if err.Some? {
        return;
      }
      AppendKeepsLastWrites(table, defaults + headers[..i], headers[i]);
      assert defaults + headers[..i+1] == (defaults + headers[..i]) + [headers[i]];
      table := table[headers[i].key := headers[i].value];
    }
    assert headers[..|headers|] == headers;
    err := None;
  }

  // ---------------------------------------------------------------------------------------------
  // The publisher's rewrite
  // ---------------------------------------------------------------------------------------------

  /** Keys of the rewritten table. */
  function NormalKeys(h: Table): set<string> {
    (set k | k in h && !IsCe(k)) + (set k | k in h && IsCe(k) :: WireKey(k[|CE|..]))
  }

  /** What the rewrite means, without reference to any iteration order: entries outside the `ce-`
      namespace stay as they are; an attribute given only as `ce-x` reappears as `cloudEvents:x`. */
  function Normalized(h: Table): Table {
    map k | k in NormalKeys(h) :: WireOrigin(h, k); if k in h then h[k] else h[CeKey(k[|WIRE|..])]
  }

  lemma WireOrigin(h: Table, k: string)
    requires k in NormalKeys(h)
    ensures k in h || (WIRE <= k && CeKey(k[|WIRE|..]) in h)
  {
    if k !in h {
      var c :| c in h && IsCe(c) && k == WireKey(c[|CE|..]);
      assert c == CeKey(c[|CE|..]) && k[|WIRE|..] == c[|CE|..];
    }
  }

  lemma PrefixesDiffer(x: string, y: string)
    ensures WireKey(x) != CeKey(y)
    ensures !IsCe(WireKey(x))
    ensures CeKey(x)[|CE|..] == x && WireKey(x)[|WIRE|..] == x
  {
    assert WireKey(x)[1] == 'l';
    assert CeKey(y)[1] == 'e';
  }

  /** A key in the middle of the rewrite, when exactly the keys in `todo` are still to be produced
      by the range statement. */
  ghost predicate Midway(h: Table, todo: set<string>, t: Table) {
    && (forall k :: k in t && IsCe(k) <==> k in todo && IsCe(k))
    && todo <= h.Keys
    && (forall k :: k in todo && IsCe(k) ==> k in t && t[k] == h[k])
    && (forall k :: k in h && !IsCe(k) ==> k in t && t[k] == h[k])
    && (forall k :: k in t && !IsCe(k) && k !in h ==>
          WIRE <= k && CeKey(k[|WIRE|..]) in h.Keys - todo && t[k] == h[CeKey(k[|WIRE|..])])
    && (forall k :: k in h.Keys - todo && IsCe(k) ==> WireKey(k[|CE|..]) in t)
  }

  /** The attribute is there already: the `ce-` key is just deleted. */
  lemma MidwayDelete(h: Table, todo: set<string>, t: Table, k: string)
    requires Midway(h, todo, t) && k in todo && IsCe(k) && WireKey(k[|CE|..]) in t
    ensures Midway(h, todo - {k}, t - {k})
  {
    PrefixesDiffer(k[|CE|..], k[|CE|..]);
  }

  /** The attribute is moved to its `cloudEvents:` key. */
  lemma MidwayMove(h: Table, todo: set<string>, t: Table, k: string)
    requires Midway(h, todo, t) && k in todo && IsCe(k) && WireKey(k[|CE|..]) !in t
    ensures k in t && Midway(h, todo - {k}, t[WireKey(k[|CE|..]) := t[k]] - {k})
  {
    PrefixesDiffer(k[|CE|..], k[|CE|..]);
    assert k == CeKey(k[|CE|..]);
  }

  /** Other keys are left alone. */
  lemma MidwaySkip(h: Table, todo: set<string>, t: Table, k: string)
    requires Midway(h, todo, t) && !IsCe(k)
    ensures Midway(h, todo - {k}, t)
  {
    forall l | l in t && !IsCe(l) && l !in h
      ensures CeKey(l[|WIRE|..]) in h.Keys - (todo - {k})
    {
      PrefixesDiffer("", l[|WIRE|..]);
    }
  }

  lemma MidwayDone(h: Table, todo: set<string>, t: Table)
    requires Midway(h, todo, t) && todo * t.Keys == {}
    ensures t == Normalized(h)
  {
    forall k | k in todo
      ensures !IsCe(k)
    {
      assert k !in todo * t.Keys;
    }
    forall k | k in t
      ensures k in NormalKeys(h) && t[k] == Normalized(h)[k]
    {
      if k !in h {
        var c := CeKey(k[|WIRE|..]);
        PrefixesDiffer(k[|WIRE|..], "");
        assert c in h && IsCe(c) && WireKey(c[|CE|..]) == k;
      }
    }
    forall k | k in NormalKeys(h)
      ensures k in t
    {
    }
  }

  /** What the normalised table holds. */
  lemma NormalizedMeaning(headers: Table)
    ensures
      var table := Normalized(headers);
      && (forall k :: k in table ==> !IsCe(k))
      && (forall k :: k in headers && !IsCe(k) ==> k in table && table[k] == headers[k])
      && (forall k :: k in headers && IsCe(k) ==>
            var w := WireKey(k[|CE|..]);
            w in table && table[w] == if w in headers then headers[w] else headers[k])
      && (forall k :: k in table && k !in headers ==> WIRE <= k && CeKey(k[|WIRE|..]) in headers)
  {
    var table := Normalized(headers);
    forall k | k in table
      ensures !IsCe(k) && (k !in headers ==> WIRE <= k && CeKey(k[|WIRE|..]) in headers)
    {
      WireOrigin(headers, k);
      if !(k in headers && !IsCe(k)) {
        var c :| c in headers && IsCe(c) && k == WireKey(c[|CE|..]);
        PrefixesDiffer(c[|CE|..], "");
      }
    }
    forall k | k in headers && IsCe(k)
      ensures var w := WireKey(k[|CE|..]);
              w in table && table[w] == if w in headers then headers[w] else headers[k]
    {
      PrefixesDiffer(k[|CE|..], "");
      assert k == CeKey(k[|CE|..]);
    }
  }

  /** The rewrite of publishMessage: it inserts into and deletes from the map it is ranging over.
      Go promises that an entry present at the start and not deleted before it is reached is
      produced exactly once, and that an entry inserted by the body may or may not be produced;
      the order is arbitrary. `:|` and `*` stand for those choices. */
  method NormalizeInPlace(headers: Table) returns (table: Table)
    ensures table == Normalized(headers)
    ensures forall k :: k in table ==> !("ce-" <= k)
    ensures forall k :: k in headers && !("ce-" <= k) ==> k in table && table[k] == headers[k]
    ensures forall k :: k in headers && "ce-" <= k ==>
              var w := "cloudEvents:" + k[3..];
              w in table && table[w] == if w in headers then headers[w] else headers[k]
    ensures forall k :: k in table && k !in headers ==> "cloudEvents:" <= k && "ce-" + k[12..] in headers
  {
    table := headers;
    var todo := headers.Keys;
    var inserted: set<string> := {};
    while true
      invariant Midway(headers, todo, table)
      invariant forall k :: k in inserted ==> !IsCe(k)
      decreases |todo|, |inserted|
    {
      var candidates := (todo + inserted) * table.Keys;
      assert todo * table.Keys <= candidates;
      if todo * table.Keys == {} {
        if * { break; }
        if candidates == {} { break; }
      }
      var k :| k in candidates;
      var v := table[k];
      if IsCe(k) {
        var wireKey := WireKey(TrimPrefix(k, CE));
        PrefixesDiffer(TrimPrefix(k, CE), "");
        if wireKey !in table {
          MidwayMove(headers, todo, table, k);
          table := table[wireKey := v];
          inserted := inserted + {wireKey};
        } else {
          MidwayDelete(headers, todo, table, k);
        }
        table := table - {k};
        assert |todo - {k}| < |todo|;
        todo := todo - {k};
      } else {
        if k in todo {
          assert |todo - {k}| < |todo|;
        } else {
          assert |inserted - {k}| < |inserted|;
        }
        MidwaySkip(headers, todo, table, k);
        todo, inserted := todo - {k}, inserted - {k};
      }
    }
    MidwayDone(headers, todo, table);
    NormalizedMeaning(headers);
  }

  // ---------------------------------------------------------------------------------------------
  // The outbox adapter's rewrite
  // ---------------------------------------------------------------------------------------------

  /** The key under which the outbox adapter stores header k. */
  function OutboxKey(k: string): string {
    if IsCe(k) then WireKey(TrimPrefix(k, CE)) else k
  }

  function AsTable(h: map<string, string>): Table {
    map k | k in h :: Str(h[k])
  }

  /** The table left by the adapter's loop when the range statement produces keys in `order`. */
  function OutboxFold(h: map<string, string>, order: seq<string>): Table
    requires forall k :: k in order ==> k in h
  {
    if order == [] then map[]
    else
      var k := order[|order|-1];
      OutboxFold(h, order[..|order|-1])[OutboxKey(k) := Str(h[k])]
  }

  /** The loop of PublishRaw over its header map, in whatever order Go picks. */
  method OutboxTable(headers: map<string, string>) returns (table: Table, ghost order: seq<string>)
    ensures IsOrder(headers.Keys, order)
    ensures table == OutboxFold(headers, order)
    ensures table.Keys == Normalized(AsTable(headers)).Keys
  {
    table := map[];
    order := [];
    var rest := headers.Keys;
    while rest != {}
      invariant rest <= headers.Keys
      invariant IsOrder(headers.Keys - rest, order)
      invariant table == OutboxFold(headers, order)
    {
      var k :| k in rest;
      rest := rest - {k};
      if IsCe(k) {
        var wireKey := WireKey(TrimPrefix(k, CE));
        table := table[wireKey := Str(headers[k])];
      } else {
        table := table[k := Str(headers[k])];
      }
      assert (order + [k])[..|order|] == order;
      order := order + [k];
    }
    OutboxKeys(headers, order);
  }

  /** Position i of `order` is the last one that writes key w. */
  ghost predicate LastWriter(order: seq<string>, w: string, i: nat) {
    && i < |order|
    && OutboxKey(order[i]) == w
    && (forall j :: i < j < |order| ==> OutboxKey(order[j]) != w)
  }

  /** The last header produced for a key decides its value. */
  lemma {:induction false} OutboxLastWriter(h: map<string, string>, order: seq<string>, w: string, i: nat)
    requires forall k :: k in order ==> k in h
    requires LastWriter(order, w, i)
    ensures w in OutboxFold(h, order) && OutboxFold(h, order)[w] == Str(h[order[i]])
  {
    var n := |order| - 1;
    if i < n {
      assert forall j :: 0 <= j < n ==> order[..n][j] == order[j];
      OutboxLastWriter(h, order[..n], w, i);
    }
  }

  /** Only keys that some header writes are present. */
  lemma {:induction false} OutboxWriter(h: map<string, string>, order: seq<string>, w: string) returns (i: nat)
    requires forall k :: k in order ==> k in h
    requires w in OutboxFold(h, order)
    ensures LastWriter(order, w, i)
  {
    var n := |order| - 1;
    if OutboxKey(order[n]) == w {
      i := n;
    } else {
      i := OutboxWriter(h, order[..n], w);
      assert forall j :: 0 <= j < n ==> order[..n][j] == order[j];
    }
  }

  lemma LastWriterFrom(order: seq<string>, w: string, n: nat) returns (i: nat)
    requires n < |order| && OutboxKey(order[n]) == w
    ensures LastWriter(order, w, i)
  {
    i := n;
    for j := n + 1 to |order|
      invariant i < j && OutboxKey(order[i]) == w
      invariant forall l :: i < l < j ==> OutboxKey(order[l]) != w
    {
      if OutboxKey(order[j]) == w { i := j; }
    }
  }

  /** Whatever the order, the adapter's key set is the publisher's. */
  lemma OutboxKeys(h: map<string, string>, order: seq<string>)
    requires IsOrder(h.Keys, order)
    ensures OutboxFold(h, order).Keys == Normalized(AsTable(h)).Keys
  {
    forall w
      ensures w in OutboxFold(h, order) <==> w in NormalKeys(AsTable(h))
    {
      if w in OutboxFold(h, order) {
        var i := OutboxWriter(h, order, w);
        assert order[i] in h;
      }
      if w in NormalKeys(AsTable(h)) {
        var k :| k in h && OutboxKey(k) == w;
        assert k in order;
        var n :| 0 <= n < |order| && order[n] == k;
        var i := LastWriterFrom(order, w, n);
        OutboxLastWriter(h, order, w, i);
      }
    }
  }

  /** Some attribute is given under both prefixes with different values. */
  ghost predicate Conflicting(h: map<string, string>, attr: string) {
    CeKey(attr) in h && WireKey(attr) in h && h[CeKey(attr)] != h[WireKey(attr)]
  }

  /** The only keys sharing an outbox key are the two spellings of one attribute. */
  lemma OutboxKeyClash(k: string, w: string)
    requires OutboxKey(k) == w
    ensures (k == w && !IsCe(k)) || (WIRE <= w && k == CeKey(w[|WIRE|..]))
  {
    if IsCe(k) {
      assert k == CeKey(k[|CE|..]);
      PrefixesDiffer(k[|CE|..], "");
    }
  }

  /** For every order, each key holds one of the values the two spellings were given. */
  lemma OutboxValue(h: map<string, string>, order: seq<string>, w: string)
    requires IsOrder(h.Keys, order) && w in OutboxFold(h, order)
    ensures
      var v := OutboxFold(h, order)[w];
      || (w in h && v == Str(h[w]))
      || (WIRE <= w && CeKey(w[|WIRE|..]) in h && v == Str(h[CeKey(w[|WIRE|..])]))
  {
    var i := OutboxWriter(h, order, w);
    OutboxLastWriter(h, order, w, i);
    OutboxKeyClash(order[i], w);
  }

  lemma AgreesWithoutConflict(h: map<string, string>, order: seq<string>)
    requires IsOrder(h.Keys, order)
    requires forall attr :: !Conflicting(h, attr)
    ensures OutboxFold(h, order) == Normalized(AsTable(h))
  {
    OutboxKeys(h, order);
    forall w | w in OutboxFold(h, order)
      ensures OutboxFold(h, order)[w] == Normalized(AsTable(h))[w]
    {
      OutboxValue(h, order, w);
      if w in h && WIRE <= w && CeKey(w[|WIRE|..]) in h {
        assert w == WireKey(w[|WIRE|..]);
        assert !Conflicting(h, w[|WIRE|..]);
      }
    }
  }

  lemma ConflictShowsInSomeOrder(h: map<string, string>, attr: string) returns (order: seq<string>)
    requires Conflicting(h, attr)
    ensures IsOrder(h.Keys, order)
    ensures OutboxFold(h, order) != Normalized(AsTable(h))
  {
    var ce, w := CeKey(attr), WireKey(attr);
    PrefixesDiffer(attr, attr);
    var front := OrderExists(h.Keys - {ce});
    order := front + [ce];
    assert order[..|front|] == front;
    assert OutboxFold(h, order)[w] == Str(h[ce]);
    assert w in NormalKeys(AsTable(h));
    assert Normalized(AsTable(h))[w] == Str(h[w]);
  }

  /** The outbox adapter agrees with the publisher for every iteration order exactly when no
      attribute is given two different values under the two prefixes. */
  lemma OutboxAgreesExactly(h: map<string, string>)
    ensures (forall order :: IsOrder(h.Keys, order) ==> OutboxFold(h, order) == Normalized(AsTable(h)))
            <==> (forall attr :: !Conflicting(h, attr))
  {
    if forall attr :: !Conflicting(h, attr) {
      forall order | IsOrder(h.Keys, order)
        ensures OutboxFold(h, order) == Normalized(AsTable(h))
      {
        AgreesWithoutConflict(h, order);
      }
    } else {
      var attr :| Conflicting(h, attr);
      var order := ConflictShowsInSomeOrder(h, attr);
    }
  }
}
