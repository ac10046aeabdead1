/** A concrete meaning for routing-key matching: the topic semantics of section 3.1.3.3 of
    AMQP 0-9-1 on dot-separated words (`*` is one word, `#` any number). It shows that the hypotheses
    the registry relies on can be met; the library the code calls may differ. */
module TopicWords {
  import opened Basics
  import Registry

  const STAR := "*"
  const HASH := "#"

  /** strings.Split(s, ".") */
  function Split(s: string): (words: seq<string>)
    ensures words != []
  {
    if s == "" then [""]
    else if s[0] == '.' then [""] + Split(s[1..])
    else var rest := Split(s[1..]); [[s[0]] + rest[0]] + rest[1..]
  }

  /** Splitting at a dot splits both sides. */
  lemma {:induction false} SplitConcat(a: string, b: string)
    ensures Split(a + "." + b) == Split(a) + Split(b)
  {
    var s := a + "." + b;
    if a == "" {
      assert s[1..] == b;
    } else {
      assert s[0] == a[0] && s[1..] == a[1..] + "." + b;
      SplitConcat(a[1..], b);
    }
  }

  lemma {:induction false} SplitDotFree(s: string)
    requires DotFree(s)
    ensures Split(s) == [s]
  {
    if s != "" {
      SplitDotFree(s[1..]);
      assert [s[0]] + s[1..] == s;
    }
  }

  // ---------------------------------------------------------------------------------------------

  predicate MatchWords(p: seq<string>, k: seq<string>)
    decreases |p| + |k|
  {
    if p == [] then k == []
    else if p[0] == HASH then MatchWords(p[1..], k) || (k != [] && MatchWords(p, k[1..]))
    else k != [] && (p[0] == STAR || p[0] == k[0]) && MatchWords(p[1..], k[1..])
  }

  /** The words that one pattern word may stand for: `#` any number, `*` one, any other itself. */
  predicate StandsFor(w: string, part: seq<string>) {
    w == "#" || (|part| == 1 && (w == "*" || part[0] == w))
  }

  function Flatten(parts: seq<seq<string>>): seq<string> {
    if parts == [] then [] else parts[0] + Flatten(parts[1..])
  }

  /** The key falls into parts, one for each word of the pattern. */
  ghost predicate FallsInto(p: seq<string>, k: seq<string>, parts: seq<seq<string>>) {
    && |parts| == |p| && Flatten(parts) == k
    && (forall i :: 0 <= i < |p| ==> StandsFor(p[i], parts[i]))
  }

  lemma FallsNext(p: seq<string>, part: seq<string>, k: seq<string>, parts: seq<seq<string>>)
    requires p != [] && FallsInto(p[1..], k, parts) && StandsFor(p[0], part)
    ensures FallsInto(p, part + k, [part] + parts)
  {
    assert ([part] + parts)[1..] == parts;
  }

  lemma {:induction false} MatchSplits(p: seq<string>, k: seq<string>) returns (parts: seq<seq<string>>)
    requires MatchWords(p, k)
    ensures FallsInto(p, k, parts)
    decreases |p| + |k|
  {
    if p == [] {
      parts := [];
    } else if p[0] == HASH && MatchWords(p[1..], k) {
      parts := MatchSplits(p[1..], k);
      FallsNext(p, [], k, parts);
      assert [] + k == k;
      parts := [[]] + parts;
    } else if p[0] == HASH {
      parts := MatchSplits(p, k[1..]);
      FallsNext(p, [k[0]] + parts[0], Flatten(parts[1..]), parts[1..]);
      assert [k[0]] + parts[0] + Flatten(parts[1..]) == [k[0]] + Flatten(parts) == k;
      parts := [[k[0]] + parts[0]] + parts[1..];
    } else {
      parts := MatchSplits(p[1..], k[1..]);
      FallsNext(p, [k[0]], k[1..], parts);
      assert [k[0]] + k[1..] == k;
      parts := [[k[0]]] + parts;
    }
  }

  lemma {:induction false} SplitsMatch(p: seq<string>, k: seq<string>, parts: seq<seq<string>>)
    requires FallsInto(p, k, parts)
    ensures MatchWords(p, k)
    decreases |p| + |k|
  {
    if p != [] {
      var rest := parts[1..];
      if parts[0] == [] {
        assert k == Flatten(rest);
        SplitsMatch(p[1..], k, rest);
      } else if p[0] == HASH {
        var shorter := [parts[0][1..]] + rest;
        assert shorter[1..] == rest;
        assert k[1..] == parts[0][1..] + Flatten(rest);
        SplitsMatch(p, k[1..], shorter);
      } else {
        assert k[0] == parts[0][0] && k[1..] == Flatten(rest);
        SplitsMatch(p[1..], k[1..], rest);
      }
    }
  }

  /** A pattern matches a key exactly when the key falls into parts that its words may stand for. */
  lemma MatchExact(p: seq<string>, k: seq<string>)
    ensures MatchWords(p, k) <==> exists parts :: FallsInto(p, k, parts)
  {
    if MatchWords(p, k) {
      var parts := MatchSplits(p, k);
    }
    if parts :| FallsInto(p, k, parts) {
      SplitsMatch(p, k, parts);
    }
  }

  predicate OverlapWords(p: seq<string>, q: seq<string>)
    decreases |p| + |q|
  {
    if p == [] && q == [] then true
    else if p != [] && p[0] == HASH then OverlapWords(p[1..], q) || (q != [] && OverlapWords(p, q[1..]))
    else if q != [] && q[0] == HASH then OverlapWords(p, q[1..]) || (p != [] && OverlapWords(p[1..], q))
    else p != [] && q != [] && (p[0] == STAR || q[0] == STAR || p[0] == q[0]) && OverlapWords(p[1..], q[1..])
  }

  lemma {:induction false} OverlapSound(p: seq<string>, q: seq<string>, k: seq<string>)
    requires MatchWords(p, k) && MatchWords(q, k)
    ensures OverlapWords(p, q)
    decreases |p| + |q| + |k|
  {
    if p != [] && p[0] == HASH {
      if MatchWords(p[1..], k) {
        OverlapSound(p[1..], q, k);
      } else if q[0] == HASH {
        if MatchWords(q[1..], k) {
          OverlapSound(p, q[1..], k);
        } else {
          OverlapSound(p, q, k[1..]);
        }
      } else {
        OverlapSound(p, q[1..], k[1..]);
      }
    } else if q != [] && q[0] == HASH {
      if MatchWords(q[1..], k) {
        OverlapSound(p, q[1..], k);
      } else {
        OverlapSound(p[1..], q, k[1..]);
      }
    } else if p != [] {
      OverlapSound(p[1..], q[1..], k[1..]);
    }
  }

  /** A word that the non-`#` pattern word w admits. */
  function Witness(w: string): string { if w == STAR then "x" else w }

  lemma {:induction false} OverlapComplete(p: seq<string>, q: seq<string>) returns (k: seq<string>)
    requires OverlapWords(p, q)
    ensures MatchWords(p, k) && MatchWords(q, k)
    decreases |p| + |q|
  {
    if p == [] && q == [] {
      k := [];
    } else if p != [] && p[0] == HASH {
      if OverlapWords(p[1..], q) {
        k := OverlapComplete(p[1..], q);
      } else {
        var rest := OverlapComplete(p, q[1..]);
        if q[0] == HASH {
          k := rest;
        } else {
          k := [Witness(q[0])] + rest;
          assert k[1..] == rest;
        }
      }
    } else if q != [] && q[0] == HASH {
      if OverlapWords(p, q[1..]) {
        k := OverlapComplete(p, q[1..]);
      } else {
        var rest := OverlapComplete(p[1..], q);
        k := [Witness(p[0])] + rest;
        assert k[1..] == rest;
      }
    } else {
      var rest := OverlapComplete(p[1..], q[1..]);
      k := [Witness(if p[0] == STAR then q[0] else p[0])] + rest;
      assert k[1..] == rest;
    }
  }

  /** Two patterns overlap exactly when some key is matched by both. */
  lemma OverlapExact(p: seq<string>, q: seq<string>)
    ensures OverlapWords(p, q) <==> exists k :: BothMatch(p, q, k)
  {
    if OverlapWords(p, q) {
      var k := OverlapComplete(p, q);
      assert BothMatch(p, q, k);
    } else {
      forall k
        ensures !BothMatch(p, q, k)
      {
        if BothMatch(p, q, k) { OverlapSound(p, q, k); }
      }
    }
  }

  predicate BothMatch(p: seq<string>, q: seq<string>, k: seq<string>) { MatchWords(p, k) && MatchWords(q, k) }

  /** Read as a key, every pattern matches itself. */
  lemma {:induction false} MatchSelf(p: seq<string>)
    ensures MatchWords(p, p)
  {
    if p != [] {
      MatchSelf(p[1..]);
      if p[0] == HASH {
        HashAbsorbs(p, p);
      }
    }
  }

  lemma HashAbsorbs(p: seq<string>, k: seq<string>)
    requires p != [] && p[0] == HASH && k != [] && MatchWords(p[1..], k[1..])
    ensures MatchWords(p, k)
  {
    assert MatchWords(p, k[1..]);
  }

  function TopicMatches(pattern: string, key: string): bool { MatchWords(Split(pattern), Split(key)) }
  function TopicOverlaps(pattern: string, other: string): bool { OverlapWords(Split(pattern), Split(other)) }

  const TOPIC := Registry.Matcher(TopicMatches, TopicOverlaps)

  /** The topic semantics meets the registry's hypotheses. */
  lemma TopicIsSound()
    ensures Registry.Sound(TOPIC)
  {
    forall p
      ensures TOPIC.overlaps(p, p)
    {
      MatchSelf(Split(p));
      OverlapSound(Split(p), Split(p), Split(p));
    }
    forall p, q | TOPIC.overlaps(p, q)
      ensures TOPIC.overlaps(q, p)
    {
      var k := OverlapComplete(Split(p), Split(q));
      OverlapSound(Split(q), Split(p), k);
    }
    forall p, q, k | TOPIC.matches(p, k) && TOPIC.matches(q, k)
      ensures TOPIC.overlaps(p, q)
    {
      OverlapSound(Split(p), Split(q), Split(k));
    }
  }
}
