/** A bounded cache that forgets what was used longest ago, and exactly what it still holds. */
module LruCache {
  import opened Hashes
  import opened Sets

  predicate Distinct(s: seq<Hash>) {
    forall i, j :: 0 <= i < j < |s| ==> s[i] != s[j]
  }

  function Without(s: seq<Hash>, h: Hash): (r: seq<Hash>)
    ensures forall x :: x in r <==> x in s && x != h
  {
    if s == [] then []
    else
      var last := |s| - 1;
      assert s == s[..last] + [s[last]];
      Without(s[..last], h) + if s[last] == h then [] else [s[last]]
  }

  lemma DistinctSnoc(s: seq<Hash>, x: Hash)
    ensures Distinct(s + [x]) <==> Distinct(s) && x !in s
  {
    if Distinct(s + [x]) {
      forall i, j | 0 <= i < j < |s|
        ensures s[i] != s[j]
      {
        assert (s + [x])[i] != (s + [x])[j];
      }
      forall i | 0 <= i < |s|
        ensures s[i] != x
      {
        assert (s + [x])[i] != (s + [x])[|s|];
      }
    }
  }

  lemma {:induction false} DistinctWithout(s: seq<Hash>, h: Hash)
    requires Distinct(s)
    ensures Distinct(Without(s, h)) && Distinct(Without(s, h) + [h])
  {
    if s == [] {
    } else {
      var rest, last := s[..|s| - 1], s[|s| - 1];
      assert s == rest + [last];
      DistinctSnoc(rest, last);
      DistinctWithout(rest, h);
      DistinctSnoc(Without(rest, h), last);
    }
    DistinctSnoc(Without(s, h), h);
  }

  /** The cache lists its keys from the one used longest ago to the one used last. */
  function Put(cap: nat, cache: seq<Hash>, h: Hash): (r: seq<Hash>)
    ensures forall x :: x in r ==> x == h || x in cache
  {
    var kept := Without(cache, h) + [h];
    if |kept| > cap then kept[1..] else kept
  }

  /** The cache after all the uses, in order. */
  function Cached(cap: nat, uses: seq<Hash>): seq<Hash> {
    if uses == [] then [] else Put(cap, Cached(cap, uses[..|uses| - 1]), uses[|uses| - 1])
  }

  lemma CachedSnoc(cap: nat, uses: seq<Hash>, h: Hash)
    ensures Cached(cap, uses + [h]) == Put(cap, Cached(cap, uses), h)
  {
    assert (uses + [h])[..|uses|] == uses;
  }

  /** What comes after the last `h`. */
  function Since(s: seq<Hash>, h: Hash): (r: set<Hash>)
    ensures h !in r && forall x :: x in r ==> x in s
  {
    if s == [] || s[|s| - 1] == h then {} else Since(s[..|s| - 1], h) + {s[|s| - 1]}
  }

  /** `h` was used, and since then as many others as the cache has room for. */
  predicate Evicted(cap: nat, uses: seq<Hash>, h: Hash) {
    h in uses && |Since(uses, h)| >= cap
  }

  lemma {:induction false} SinceWithout(s: seq<Hash>, x: Hash, h: Hash)
    requires h != x
    ensures Since(Without(s, x), h) == Since(s, h) - {x}
  {
    if s == [] {
    } else {
      var rest, last := s[..|s| - 1], s[|s| - 1];
      SinceWithout(rest, x, h);
      if last == x {
        assert Without(s, x) == Without(rest, x);
      } else {
        SinceSnoc(Without(rest, x), last, h);
      }
    }
  }

  lemma SinceSnoc(s: seq<Hash>, x: Hash, h: Hash)
    ensures Since(s + [x], h) == if x == h then {} else Since(s, h) + {x}
  {
    assert (s + [x])[..|s|] == s;
  }

  /** Dropping the first entry does not change what comes after the others, and after it comes everything else. */
  lemma {:induction false} SinceTail(s: seq<Hash>, h: Hash)
    requires s != [] && Distinct(s)
    ensures h in s[1..] ==> Since(s, h) == Since(s[1..], h)
    ensures h == s[0] ==> Since(s, h) == Elements(s[1..])
    decreases |s|
  {
    if |s| == 1 {
    } else {
      var n := |s| - 1;
      SinceTail(s[..n], h);
      assert s[1..][..n - 1] == s[..n][1..];
      assert s[1..] == s[..n][1..] + [s[n]];
    }
  }

  lemma {:induction false} DistinctCount(s: seq<Hash>)
    ensures |Elements(s)| <= |s|
    ensures Distinct(s) ==> |Elements(s)| == |s|
  {
    if s == [] {
    } else {
      var n := |s| - 1;
      DistinctCount(s[..n]);
      assert Elements(s) == Elements(s[..n]) + {s[n]};
    }
  }

  /** The cache is in order of use: the same comes after each entry there as in the uses. */
  ghost predicate InOrder(cap: nat, uses: seq<Hash>, cache: seq<Hash>) {
    && Distinct(cache) && |cache| <= cap
    && (forall h :: h in cache ==> h in uses && Since(cache, h) == Since(uses, h))
    && (forall h :: h in uses && h !in cache ==> |Since(uses, h)| >= cap)
  }

  lemma PutKeepsOrder(cap: nat, uses: seq<Hash>, cache: seq<Hash>, x: Hash)
    requires cap >= 1 && InOrder(cap, uses, cache)
    ensures InOrder(cap, uses + [x], Put(cap, cache, x))
  {
    var uses', kept := uses + [x], Without(cache, x) + [x];
    var cache' := Put(cap, cache, x);
    forall h | h in kept
      ensures h in uses' && Since(kept, h) == Since(uses', h)
    {
      KeptInOrder(uses, cache, x, h);
    }
    DistinctWithout(cache, x);
    WithoutLength(cache, x);
    forall h | h in cache'
      ensures Since(cache', h) == Since(uses', h)
    {
      SinceTail(kept, h);
    }
    forall h | h in uses' && h !in cache'
      ensures |Since(uses', h)| >= cap
    {
      ForgottenLongAgo(cap, uses, cache, x, h);
    }
  }

  lemma {:induction false} WithoutLength(s: seq<Hash>, h: Hash)
    ensures |Without(s, h)| <= |s|
  {
    if s == [] {
    } else {
      WithoutLength(s[..|s| - 1], h);
    }
  }

  lemma KeptInOrder(uses: seq<Hash>, cache: seq<Hash>, x: Hash, h: Hash)
    requires h == x || (h in cache && h in uses && Since(cache, h) == Since(uses, h))
    ensures h in uses + [x] && Since(Without(cache, x) + [x], h) == Since(uses + [x], h)
  {
    SinceSnoc(uses, x, h);
    SinceSnoc(Without(cache, x), x, h);
    if h != x {
      SinceWithout(cache, x, h);
    }
  }

  /** The first entry of a list that is one too long has as many after it as there is room for. */
  lemma DroppedLongAgo(cap: nat, kept: seq<Hash>, h: Hash)
    requires Distinct(kept) && |kept| == cap + 1 && h == kept[0]
    ensures |Since(kept, h)| == cap
  {
    SinceTail(kept, h);
    DistinctCount(kept[1..]);
  }

  lemma ForgottenLongAgo(cap: nat, uses: seq<Hash>, cache: seq<Hash>, x: Hash, h: Hash)
    requires cap >= 1 && InOrder(cap, uses, cache) && h in uses + [x] && h !in Put(cap, cache, x)
    ensures |Since(uses + [x], h)| >= cap
  {
    var kept := Without(cache, x) + [x];
    if h in kept {
      WithoutLength(cache, x);
      DistinctWithout(cache, x);
      KeptInOrder(uses, cache, x, h);
      DroppedLongAgo(cap, kept, h);
    } else {
      SinceSnoc(uses, x, h);
      SubsetCard(Since(uses, h), Since(uses + [x], h));
    }
  }

  /** What the cache holds: what was used, with fewer others used since than it has room for. */
  lemma {:induction false} CachedExactly(cap: nat, uses: seq<Hash>)
    requires cap >= 1
    ensures InOrder(cap, uses, Cached(cap, uses))
    ensures forall h :: h in Cached(cap, uses) <==> h in uses && |Since(uses, h)| < cap
  {
    if uses == [] {
    } else {
      var n := |uses| - 1;
      CachedExactly(cap, uses[..n]);
      PutKeepsOrder(cap, uses[..n], Cached(cap, uses[..n]), uses[n]);
      assert uses == uses[..n] + [uses[n]];
    }
    forall h | h in Cached(cap, uses)
      ensures |Since(uses, h)| < cap
    {
      RecentlyUsed(cap, uses, Cached(cap, uses), h);
    }
  }

  lemma RecentlyUsed(cap: nat, uses: seq<Hash>, cache: seq<Hash>, h: Hash)
    requires InOrder(cap, uses, cache) && h in cache
    ensures |Since(uses, h)| < cap
  {
    DistinctCount(cache);
    SubsetCard(Since(cache, h), Elements(cache) - {h});
  }

  /** One key and then as many different others as there is room for: the key is forgotten. */
  lemma ForgottenAfterOthers(cap: nat, h: Hash, others: seq<Hash>)
    requires cap >= 1 && Distinct(others) && |others| == cap && h !in others
    ensures h !in Cached(cap, [h] + others)
  {
    var uses := [h] + others;
    assert uses[1..] == others;
    SinceTail(uses, h);
    DistinctCount(others);
    CachedExactly(cap, uses);
  }
}
