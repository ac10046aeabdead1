/** Vocabulary shared by every component of the model. */
module Basics {

  datatype Option<+T> = None | Some(value: T)

  /** A header value. Go stores `any`; the code under study only ever asks whether a value is a string, so
      everything but strings and lists of strings is an opaque token. */
  datatype Value = Str(s: string) | Strs(items: seq<string>) | NonStr(id: int)

  /** amqp.Table */
  type Table = map<string, Value>

  /** strings.TrimPrefix; strings.HasPrefix(s, p) is written `p <= s`. */
  function TrimPrefix(s: string, p: string): string {
    if p <= s then s[|p|..] else s
  }

  predicate DotFree(s: string) { forall i :: 0 <= i < |s| ==> s[i] != '.' }

  /** `order` is one possible order in which a Go `range` over a map with key set `keys` that is
      not modified by its body produces the keys: every key exactly once. */
  ghost predicate IsOrder<K(!new)>(keys: set<K>, order: seq<K>) {
    && (forall k :: k in order <==> k in keys)
    && (forall i, j :: 0 <= i < j < |order| ==> order[i] != order[j])
  }

  /** The keys of a range statement that may have been left early. */
  ghost predicate IsPartialOrder<K(!new)>(keys: set<K>, order: seq<K>) {
    && (forall k :: k in order ==> k in keys)
    && (forall i, j :: 0 <= i < j < |order| ==> order[i] != order[j])
  }

  /** Every finite key set has an iteration order. */
  lemma OrderExists<K(!new)>(keys: set<K>) returns (order: seq<K>)
    ensures IsOrder(keys, order)
  {
    order := [];
    var rest := keys;
    while rest != {}
      invariant rest <= keys
      invariant IsOrder(keys - rest, order)
    {
      var k :| k in rest;
      rest := rest - {k};
      order := order + [k];
    }
  }

  lemma OrderConcat<K(!new)>(a: set<K>, b: set<K>, order: seq<K>, more: seq<K>)
    requires a !! b && IsOrder(a, order) && IsOrder(b, more)
    ensures IsOrder(a + b, order + more)
  {
    var all := order + more;
    forall i, j | 0 <= i < j < |all|
      ensures all[i] != all[j]
    {
      assert i < |order| ==> all[i] in a;
      assert j >= |order| ==> all[j] in b;
    }
  }

  /** Concatenation can be cancelled on the right. */
  lemma CancelSuffix<T>(a: seq<T>, b: seq<T>, tail: seq<T>)
    requires a + tail == b + tail
    ensures a == b
  {
    assert |a| == |b|;
    assert a == (a + tail)[..|a|];
    assert b == (b + tail)[..|b|];
  }
}
