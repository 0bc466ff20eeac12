/** The replay cache: a bounded, least-recently-seen-first list of message keys, and the timestamp
    window beside it. */
module Replay {
  import opened Basics

  type Key = bytes

  function Without(s: seq<Key>, k: Key): (r: seq<Key>)
    ensures forall x :: x in r <==> x in s && x != k
    ensures |r| <= |s|
  {
    if s == [] then []
    else if s[|s| - 1] == k then Without(s[..|s| - 1], k)
    else Without(s[..|s| - 1], k) + [s[|s| - 1]]
  }

  /** The keys of a history, each once, ordered by when it last occurred. */
  function Recency(h: seq<Key>): (r: seq<Key>)
    ensures forall x :: x in r <==> x in h
  {
    if h == [] then []
    else
      var k := h[|h| - 1];
      Without(Recency(h[..|h| - 1]), k) + [k]
  }

  /** The last n elements, or all when there are fewer. */
  function Last(s: seq<Key>, n: nat): seq<Key> {
    if |s| <= n then s else s[|s| - n..]
  }

  /** What came after the last occurrence of k. */
  function Since(h: seq<Key>, k: Key): (s: seq<Key>)
    requires k in h
    ensures k !in s
  {
    if h[|h| - 1] == k then [] else Since(h[..|h| - 1], k) + [h[|h| - 1]]
  }

  function Elements(s: seq<Key>): set<Key> {
    set x | x in s
  }

  /** k occurred, and fewer than n distinct other keys have occurred since. */
  predicate SeenRecently(h: seq<Key>, k: Key, n: nat) {
    k in h && |Elements(Since(h, k))| < n
  }

  lemma {:induction false} DistinctSnocUnless(s: seq<Key>, v: Key, k: Key)
    requires Distinct(s) && v !in s
    ensures v != k ==> Distinct(s + [v])
  {
  }

  lemma {:induction false} WithoutDistinct(s: seq<Key>, k: Key)
    requires Distinct(s)
    ensures Distinct(Without(s, k))
  {
    if s != [] {
      DistinctFront(s);
      WithoutDistinct(s[..|s| - 1], k);
      DistinctSnocUnless(Without(s[..|s| - 1], k), s[|s| - 1], k);
    }
  }

  lemma {:induction false} RecencyDistinct(h: seq<Key>)
    ensures Distinct(Recency(h))
  {
    if h != [] {
      RecencyDistinct(h[..|h| - 1]);
      WithoutDistinct(Recency(h[..|h| - 1]), h[|h| - 1]);
      DistinctSnoc(Without(Recency(h[..|h| - 1]), h[|h| - 1]), h[|h| - 1]);
    }
  }

  lemma {:induction false} WithoutAbsent(s: seq<Key>, k: Key)
    requires k !in s
    ensures Without(s, k) == s
  {
    if s != [] {
      WithoutAbsent(s[..|s| - 1], k);
    }
  }

  lemma {:induction false} WithoutSplit(a: seq<Key>, b: seq<Key>, k: Key)
    ensures Without(a + b, k) == Without(a, k) + Without(b, k)
  {
    if b == [] {
      assert a + b == a;
    } else {
      assert (a + b)[..|a + b| - 1] == a + b[..|b| - 1];
      WithoutSplit(a, b[..|b| - 1], k);
    }
  }

  lemma {:induction false} WithoutOnce(s: seq<Key>, k: Key)
    requires Distinct(s) && k in s
    ensures |Without(s, k)| == |s| - 1
  {
    if s[|s| - 1] == k {
      WithoutAbsent(s[..|s| - 1], k);
    } else {
      WithoutOnce(s[..|s| - 1], k);
    }
  }

  lemma {:induction false} LastOfLong(a: seq<Key>, b: seq<Key>, n: nat)
    requires |b| == n
    ensures Last(a + b, n) == b
  {
  }

  /** Touching a key keeps the last n of the list the last n of the longer list. */
  lemma {:induction false} TouchLast(r: seq<Key>, k: Key, n: nat)
    requires Distinct(r) && n > 0
    ensures Last(Without(r, k) + [k], n) ==
      if k in Last(r, n) then Without(Last(r, n), k) + [k] else Last(Last(r, n) + [k], n)
  {
    if |r| <= n {
      if k !in r {
        WithoutAbsent(r, k);
      } else {
        WithoutOnce(r, k);
      }
    } else {
      assert r == r[..|r| - n] + r[|r| - n..];
      TouchLong(r[..|r| - n], r[|r| - n..], k, n);
    }
  }

  lemma {:induction false} TouchLong(front: seq<Key>, back: seq<Key>, k: Key, n: nat)
    requires Distinct(back) && n > 0 && |back| == n
    ensures Last(Without(front + back, k) + [k], n) ==
      if k in back then Without(back, k) + [k] else back[1..] + [k]
    ensures Last(back + [k], n) == back[1..] + [k]
  {
    WithoutSplit(front, back, k);
    if k in back {
      WithoutOnce(back, k);
      Assoc(Without(front, k), Without(back, k), [k]);
      LastOfLong(Without(front, k), Without(back, k) + [k], n);
    } else {
      WithoutAbsent(back, k);
      Assoc(Without(front, k), back, [k]);
      DropOne(Without(front, k), back, k, n);
    }
    DropOne([], back, k, n);
    assert [] + (back + [k]) == back + [k];
  }

  lemma {:induction false} DropOne(front: seq<Key>, back: seq<Key>, k: Key, n: nat)
    requires n > 0 && |back| == n
    ensures Last(front + (back + [k]), n) == back[1..] + [k]
  {
  }

  /** Where k stands in the recency list: what follows it is what came since. */
  lemma {:induction false} RecencySplit(h: seq<Key>, k: Key) returns (before: seq<Key>, after: seq<Key>)
    requires k in h
    ensures Recency(h) == before + [k] + after
    ensures forall x :: x in after <==> x in Since(h, k)
  {
    var x, front := h[|h| - 1], h[..|h| - 1];
    if x == k {
      before, after := Without(Recency(front), k), [];
      assert before + [k] + [] == before + [k];
    } else {
      var b, a := RecencySplit(front, k);
      before, after := Without(b, x), Without(a, x) + [x];
      WithoutAround(b, k, a, x);
    }
  }

  lemma {:induction false} WithoutAround(b: seq<Key>, k: Key, a: seq<Key>, x: Key)
    requires x != k
    ensures Without(b + [k] + a, x) + [x] == Without(b, x) + [k] + (Without(a, x) + [x])
  {
    WithoutSplit(b + [k], a, x);
    WithoutSplit(b, [k], x);
    WithoutAbsent([k], x);
  }

  lemma {:induction false} CountDistinct(s: seq<Key>)
    requires Distinct(s)
    ensures |Elements(s)| == |s|
  {
    if s != [] {
      CountDistinct(s[..|s| - 1]);
      assert Elements(s) == Elements(s[..|s| - 1]) + {s[|s| - 1]};
    }
  }

  lemma {:induction false} InLast(before: seq<Key>, k: Key, after: seq<Key>, n: nat)
    requires Distinct(before + [k] + after)
    ensures k in Last(before + [k] + after, n) <==> |after| < n
  {
    var r := before + [k] + after;
    assert r[|before|] == k;
    var skipped := |r| - |Last(r, n)|;
    if |after| < n {
      assert Last(r, n)[|before| - skipped] == k;
    } else {
      forall i | 0 <= i < |Last(r, n)| ensures Last(r, n)[i] != k {
        assert Last(r, n)[i] == r[skipped + i];
      }
    }
  }

  lemma {:induction false} DistinctTail(before: seq<Key>, k: Key, after: seq<Key>)
    requires Distinct(before + [k] + after)
    ensures Distinct(after)
  {
    assert forall i :: 0 <= i < |after| ==> after[i] == (before + [k] + after)[|before| + 1 + i];
  }

  /** Stack distance: the last n of the recency list hold exactly the keys seen recently. */
  lemma {:induction false} LastIsRecent(h: seq<Key>, k: Key, n: nat)
    ensures k in Last(Recency(h), n) <==> SeenRecently(h, k, n)
  {
    if k in h {
      var before, after := RecencySplit(h, k);
      RecencyDistinct(h);
      InLast(before, k, after, n);
      DistinctTail(before, k, after);
      CountDistinct(after);
      assert Elements(after) == Elements(Since(h, k));
    }
  }

  /** One more key, seen by the cache. */
  lemma {:induction false} SeeNext(h: seq<Key>, k: Key, n: nat)
    requires n > 0
    ensures Last(Recency(h + [k]), n) ==
      if k in Last(Recency(h), n) then Without(Last(Recency(h), n), k) + [k]
      else Last(Last(Recency(h), n) + [k], n)
  {
    RecencyDistinct(h);
    TouchLast(Recency(h), k, n);
    assert (h + [k])[..|h|] == h;
  }

  class ReplayCache {
    const max: int
    var entries: seq<Key>
    /** Every key ever checked, in order. */
    ghost var history: seq<Key>

    ghost predicate Valid()
      reads this
    {
      max > 0 && entries == Last(Recency(history), max)
    }

    constructor (max: int)
      requires max > 0
      ensures Valid() && this.max == max && entries == [] && history == []
    {
      this.max := max;
      entries, history := [], [];
    }

    /** True when the key is new, false when it is a replay. */
    method CheckAndAdd(key: Key) returns (fresh_: bool)
      requires Valid()
      modifies this
      ensures Valid() && history == old(history) + [key]
      ensures fresh_ <==> !SeenRecently(old(history), key, max)
      ensures |entries| <= max
    {
      LastIsRecent(history, key, max);
      SeeNext(history, key, max);
      history := history + [key];
      if key in entries {
        entries := Without(entries, key) + [key];
        return false;
      }
      entries := entries + [key];
      if |entries| > max {
        entries := entries[1..];
      }
      fresh_ := true;
    }

    method Size() returns (n: nat)
      requires Valid()
      ensures n == |entries| <= max
    {
      n := |entries|;
    }
  }

  /** A cache, or the refusal of a size that is not positive. */
  method NewCache(max: int) returns (r: Option<ReplayCache>)
    ensures r.Some? <==> max > 0
    ensures r.Some? ==> fresh(r.value) && r.value.Valid() && r.value.max == max && r.value.history == []
  {
    if max <= 0 { return None; }
    var cache := new ReplayCache(max);
    r := Some(cache);
  }

  const TIMESTAMP_WINDOW := 300
  const DEFAULT_REPLAY_CACHE_SIZE := 100_000

  /** Accept a timestamp only within the window around now. */
  predicate TimestampOk(timestamp: int, now: int, window: int) {
    (if now >= timestamp then now - timestamp else timestamp - now) <= window
  }

  /** The replay key: sender and nonce. The request identifier is not part of it. */
  function ReplayKey(sender: Uuid, requestId: Uuid, nonce: bytes): Key {
    sender + nonce
  }

  /** Two envelopes share a key exactly when they share sender and nonce. */
  lemma {:induction false} ReplayKeyInjective(s: Uuid, q: Uuid, n: bytes, s': Uuid, q': Uuid, n': bytes)
    ensures ReplayKey(s, q, n) == ReplayKey(s', q', n') <==> s == s' && n == n'
  {
    if s + n == s' + n' {
      assert s == (s + n)[..16] == (s' + n')[..16] == s';
      assert n == (s + n)[16..] == (s' + n')[16..] == n';
    }
  }
}
