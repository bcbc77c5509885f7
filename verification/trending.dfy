/** The trending order (src/modules/startups/startups.service.ts): startups
    sorted by engagement score, views plus twice the upvotes, highest first.
    The source sorts with `Array.prototype.sort`, which is stable, so
    startups with equal scores keep their listing order; the model sorts by
    stable insertion. */
module Trending {
  import opened StartupTypes

  /** The engagement score */
  function Score(s: Startup): int {
    s.viewCount + s.upvoteCount * 2
  }

  /** Scores never increase along the sequence */
  predicate SortedByScore(s: seq<Startup>) {
    forall i, j :: 0 <= i < j < |s| ==> Score(s[i]) >= Score(s[j])
  }

  /** Inserts `x` into a sorted sequence, ahead of every startup whose score
      is not above its own */
  function Insert(x: Startup, s: seq<Startup>): (r: seq<Startup>)
    requires SortedByScore(s)
    ensures SortedByScore(r)
    ensures multiset(r) == multiset(s) + multiset{x}
    ensures |r| == |s| + 1
    decreases |s|
  {
    if |s| == 0 || Score(x) >= Score(s[0]) then
      [x] + s
    else
      var rest := Insert(x, s[1..]);
      assert s == [s[0]] + s[1..];
      forall k | 0 <= k < |rest| ensures Score(s[0]) >= Score(rest[k]) {
        assert rest[k] in multiset(s[1..]) + multiset{x};
        if rest[k] != x {
          assert rest[k] in s[1..];
        }
      }
      [s[0]] + rest
  }

  /** The startups in trending order: a permutation of the input, sorted by
      score */
  function SortByScore(s: seq<Startup>): (r: seq<Startup>)
    ensures SortedByScore(r)
    ensures multiset(r) == multiset(s)
    ensures |r| == |s|
    decreases |s|
  {
    if |s| == 0 then []
    else
      assert s == [s[0]] + s[1..];
      Insert(s[0], SortByScore(s[1..]))
  }

  /** Where `Array.prototype.slice(0, limit)` ends on a sequence of length
      `len`: a negative limit counts back from the end */
  function SliceEnd(len: nat, limit: int): (e: nat)
    ensures e <= len
    ensures limit >= 0 ==> e == (if limit < len then limit else len)
    ensures limit < 0 ==> e == (if len + limit > 0 then len + limit else 0)
  {
    if limit >= 0 then (if limit < len then limit else len)
    else if len + limit > 0 then len + limit else 0
  }

  // ---------------------------------------------------------------------
  // Lemmas

  /** A prefix of a sorted sequence is sorted */
  lemma SortedPrefix(s: seq<Startup>, n: nat)
    requires SortedByScore(s) && n <= |s|
    ensures SortedByScore(s[..n])
  {
  }

  /** The startups of one score, in their order */
  function WithScore(s: seq<Startup>, v: int): (r: seq<Startup>)
    ensures forall k :: 0 <= k < |r| ==> Score(r[k]) == v
  {
    if |s| == 0 then []
    else (if Score(s[0]) == v then [s[0]] else []) + WithScore(s[1..], v)
  }

  /** The startups of one score in a sequence with a given first element */
  lemma WithScoreCons(a: Startup, rest: seq<Startup>, v: int)
    ensures WithScore([a] + rest, v) == (if Score(a) == v then [a] else []) + WithScore(rest, v)
  {
    assert ([a] + rest)[1..] == rest;
  }

  /** A sorted sequence stays sorted without its first element */
  lemma SortedTail(s: seq<Startup>)
    requires SortedByScore(s) && |s| > 0
    ensures SortedByScore(s[1..])
  {
  }

  /** One step of InsertKeepsEqualOrder: a startup of higher score than `x`
      placed in front of both sides keeps their startups of score `v` related */
  lemma ConsBehind(a: Startup, x: Startup, rest: seq<Startup>, tail: seq<Startup>, v: int)
    requires Score(x) < Score(a)
    requires WithScore(rest, v) == (if Score(x) == v then [x] else []) + WithScore(tail, v)
    ensures WithScore([a] + rest, v) == (if Score(x) == v then [x] else []) + WithScore([a] + tail, v)
  {
    WithScoreCons(a, rest, v);
    WithScoreCons(a, tail, v);
    SwapPastEmpty(if Score(a) == v then [a] else [], if Score(x) == v then [x] else [], WithScore(tail, v));
  }

  /** Two prefixes, one of them empty, can be applied in either order */
  lemma SwapPastEmpty<T>(h: seq<T>, g: seq<T>, w: seq<T>)
    requires h == [] || g == []
    ensures h + (g + w) == g + (h + w)
  {
  }

  /** Insertion puts the new startup ahead of those of equal score */
  lemma {:induction false} InsertKeepsEqualOrder(x: Startup, s: seq<Startup>, v: int)
    requires SortedByScore(s)
    ensures WithScore(Insert(x, s), v) == (if Score(x) == v then [x] else []) + WithScore(s, v)
    decreases |s|
  {
    if |s| == 0 || Score(x) >= Score(s[0]) {
      assert Insert(x, s) == [x] + s;
      WithScoreCons(x, s, v);
    } else {
      SortedTail(s);
      InsertKeepsEqualOrder(x, s[1..], v);
      assert Insert(x, s) == [s[0]] + Insert(x, s[1..]);
      assert s == [s[0]] + s[1..];
      ConsBehind(s[0], x, Insert(x, s[1..]), s[1..], v);
    }
  }

  /** The trending order is stable: the startups of any one score appear in
      their listing order */
  lemma {:induction false} SortIsStable(s: seq<Startup>, v: int)
    ensures WithScore(SortByScore(s), v) == WithScore(s, v)
    decreases |s|
  {
    if |s| > 0 {
      SortIsStable(s[1..], v);
      InsertKeepsEqualOrder(s[0], SortByScore(s[1..]), v);
    }
  }

  /** Two startups with equal score keep their listing order */
  lemma StableOnTwo(a: Startup, b: Startup)
    requires Score(a) == Score(b)
    ensures SortByScore([a, b]) == [a, b]
  {
    assert [a, b][1..] == [b];
    assert [b][1..] == [];
  }

  /** A higher-scored startup moves ahead of a lower one */
  lemma HigherScoreFirst(a: Startup, b: Startup)
    requires Score(a) < Score(b)
    ensures SortByScore([a, b]) == [b, a]
  {
    assert [a, b][1..] == [b];
    assert [b][1..] == [];
  }
}
