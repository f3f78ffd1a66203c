/**
 The heuristic search for the pair of weights (W1, W2) of a two-source
 observation model: among all ordered pairs of candidate weights that sum to 1,
 keep the pairs that maximise a likelihood for one observation (angle, path),
 collect them over many observations, and report the pairs that were kept most
 often together with a confidence verdict.

 The likelihood is a parameter of the search (`likelihood(pair, a, p)`): its
 exponentials and rounding are not modelled, only how its values are compared.
 */
module ChooseBestPair {
  import opened Results

  /** An ordered pair of weights (W1, W2). */
  type Pair = (real, real)

  // ---------------------------------------------------------------------------
  // Candidate pairs: itertools.permutations(all_pairs, 2)
  // ---------------------------------------------------------------------------

  /** The pairs (s[i], s[b]) for b = j .. |s| - 1, b != i, in that order. */
  function Row(s: seq<real>, i: nat, j: nat): seq<Pair>
    requires i < |s| && j <= |s|
    decreases |s| - j
  {
    if j == |s| then []
    else (if j == i then [] else [(s[i], s[j])]) + Row(s, i, j + 1)
  }

  /** The ordered pairs whose first position is at least i, in lexicographic order of positions. */
  function PermutationsFrom(s: seq<real>, i: nat): seq<Pair>
    requires i <= |s|
    decreases |s| - i
  {
    if i == |s| then [] else Row(s, i, 0) + PermutationsFrom(s, i + 1)
  }

  /** permutations(s, 2): every ordered pair of elements at two distinct positions of s. */
  function Permutations(s: seq<real>): seq<Pair>
  {
    PermutationsFrom(s, 0)
  }

  /** x is made of the elements at two distinct positions of s. */
  ghost predicate IsOrderedPairOf(s: seq<real>, x: Pair)
  {
    exists a, b :: 0 <= a < |s| && 0 <= b < |s| && a != b && x == (s[a], s[b])
  }

  lemma {:induction false} RowMembers(s: seq<real>, i: nat, j: nat, x: Pair)
    requires i < |s| && j <= |s|
    ensures x in Row(s, i, j) <==> exists b :: j <= b < |s| && b != i && x == (s[i], s[b])
    decreases |s| - j
  {
    if j < |s| {
      RowMembers(s, i, j + 1, x);
      var head := if j == i then [] else [(s[i], s[j])];
      assert Row(s, i, j) == head + Row(s, i, j + 1);
      if x in Row(s, i, j) && x !in Row(s, i, j + 1) {
        assert x in head;
        assert j <= j < |s| && j != i && x == (s[i], s[j]);
      }
    }
  }

  lemma {:induction false} PermutationsFromMembers(s: seq<real>, i: nat, x: Pair)
    requires i <= |s|
    ensures x in PermutationsFrom(s, i) <==>
      exists a, b :: i <= a < |s| && 0 <= b < |s| && a != b && x == (s[a], s[b])
    decreases |s| - i
  {
    if i < |s| {
      PermutationsFromMembers(s, i + 1, x);
      RowMembers(s, i, 0, x);
      if x in Row(s, i, 0) {
        var b :| 0 <= b < |s| && b != i && x == (s[i], s[b]);
        assert i <= i < |s| && 0 <= b < |s| && i != b && x == (s[i], s[b]);
      }
      if exists a, b :: i <= a < |s| && 0 <= b < |s| && a != b && x == (s[a], s[b]) {
        var a, b :| i <= a < |s| && 0 <= b < |s| && a != b && x == (s[a], s[b]);
        if a == i {
          assert 0 <= b < |s| && b != i && x == (s[i], s[b]);
        } else {
          assert i + 1 <= a < |s| && 0 <= b < |s| && a != b && x == (s[a], s[b]);
        }
      }
    }
  }

  /** The candidates are exactly the ordered pairs of elements at distinct positions. */
  lemma PermutationsMembers(s: seq<real>, x: Pair)
    ensures x in Permutations(s) <==> IsOrderedPairOf(s, x)
  {
    PermutationsFromMembers(s, 0, x);
  }

  // ---------------------------------------------------------------------------
  // find_best_pair: the pairs that sum to 1 and attain the maximum likelihood
  // ---------------------------------------------------------------------------

  /** sum(pair) == 1. */
  predicate SumsToOne(x: Pair)
  {
    x.0 + x.1 == 1.0
  }

  /** A list comprehension with a condition: the elements of s satisfying f, in order. */
  function Filter<T(!new)>(s: seq<T>, f: T -> bool): (r: seq<T>)
    ensures |r| <= |s|
    ensures forall x :: x in r <==> x in s && f(x)
  {
    if |s| == 0 then []
    else (if f(s[0]) then [s[0]] else []) + Filter(s[1..], f)
  }

  /** Two conditions that agree on every element of s keep the same elements. */
  lemma {:induction false} FilterCongruence<T(!new)>(s: seq<T>, f: T -> bool, g: T -> bool)
    requires forall x :: x in s ==> f(x) == g(x)
    ensures Filter(s, f) == Filter(s, g)
  {
    if |s| > 0 {
      assert forall x :: x in s[1..] ==> x in s;
      FilterCongruence(s[1..], f, g);
    }
  }

  /** The ordered pairs of candidate weights that sum to 1. */
  function Candidates(allPairs: seq<real>): seq<Pair>
  {
    Filter(Permutations(allPairs), SumsToOne)
  }

  /** max(likelihood(pair, a, p) for pair in ps). */
  function MaxScore(ps: seq<Pair>, likelihood: (Pair, real, real) -> real, a: real, p: real): (m: real)
    requires |ps| > 0
    ensures exists k :: 0 <= k < |ps| && m == likelihood(ps[k], a, p)
    ensures forall k :: 0 <= k < |ps| ==> likelihood(ps[k], a, p) <= m
  {
    if |ps| == 1 then likelihood(ps[0], a, p)
    else
      var rest := MaxScore(ps[1..], likelihood, a, p);
      assert forall k :: 1 <= k < |ps| ==> ps[k] == ps[1..][k - 1];
      if likelihood(ps[0], a, p) >= rest then likelihood(ps[0], a, p) else rest
  }

  /**
   The max_pairs comprehension of find_best_pair: the candidates whose
   likelihood equals the maximum over all candidates. With no candidate the
   condition `sum(pair) == 1` already fails, so the maximum is never taken.
   */
  function MaxPairs(allPairs: seq<real>, likelihood: (Pair, real, real) -> real, a: real, p: real): seq<Pair>
  {
    var c := Candidates(allPairs);
    if |c| == 0 then []
    else Filter(c, x => likelihood(x, a, p) == MaxScore(c, likelihood, a, p))
  }

  /**
   A pair is among the maximising pairs exactly when it is an ordered pair of
   two candidate weights at distinct positions, sums to 1, and no such pair has
   a larger likelihood.
   */
  lemma MaxPairsCharacterization(allPairs: seq<real>, likelihood: (Pair, real, real) -> real, a: real, p: real, x: Pair)
    ensures x in MaxPairs(allPairs, likelihood, a, p) <==>
      IsOrderedPairOf(allPairs, x) && SumsToOne(x) &&
      forall y :: IsOrderedPairOf(allPairs, y) && SumsToOne(y) ==> likelihood(y, a, p) <= likelihood(x, a, p)
  {
    var c := Candidates(allPairs);
    PermutationsMembers(allPairs, x);
    forall y | IsOrderedPairOf(allPairs, y) && SumsToOne(y)
      ensures y in c
    {
      PermutationsMembers(allPairs, y);
    }
    if |c| > 0 {
      var m := MaxScore(c, likelihood, a, p);
      if x in MaxPairs(allPairs, likelihood, a, p) {
        forall y | IsOrderedPairOf(allPairs, y) && SumsToOne(y)
          ensures likelihood(y, a, p) <= likelihood(x, a, p)
        {
          var k :| 0 <= k < |c| && c[k] == y;
        }
      }
      if IsOrderedPairOf(allPairs, x) && SumsToOne(x) &&
         forall y :: IsOrderedPairOf(allPairs, y) && SumsToOne(y) ==> likelihood(y, a, p) <= likelihood(x, a, p)
      {
        var k :| 0 <= k < |c| && m == likelihood(c[k], a, p);
        PermutationsMembers(allPairs, c[k]);
        assert c[k] in c;
        var k' :| 0 <= k' < |c| && c[k'] == x;
      }
    }
  }

  /** Every maximising pair attains the maximum likelihood over the candidates. */
  lemma MaxPairsAttainMaximum(allPairs: seq<real>, likelihood: (Pair, real, real) -> real, a: real, p: real, x: Pair)
    requires x in MaxPairs(allPairs, likelihood, a, p)
    ensures |Candidates(allPairs)| > 0
    ensures likelihood(x, a, p) == MaxScore(Candidates(allPairs), likelihood, a, p)
  {
  }

  /**
   The accumulator of find_best_pair: the candidate weights and the likelihood
   are fixed, the list of kept pairs grows with every observation.
   */
  class BestPairSearch {
    const allPairs: seq<real>
    const likelihood: (Pair, real, real) -> real
    var ls: seq<Pair>

    constructor (allPairs: seq<real>, likelihood: (Pair, real, real) -> real)
      ensures this.allPairs == allPairs && this.likelihood == likelihood
      ensures ls == []
    {
      this.allPairs := allPairs;
      this.likelihood := likelihood;
      ls := [];
    }

    /**
     find_best_pair: scale the observation (a = Angle/180, p = Path/25), then
     append the maximising pairs to the accumulator one by one, in order, and
     return the accumulator.
     */
    method FindBestPair(angle: real, path: real) returns (r: seq<Pair>)
      modifies this
      ensures ls == old(ls) + MaxPairs(allPairs, likelihood, angle / 180.0, path / 25.0)
      ensures r == ls
    {
      var a := angle / 180.0;
      var p := path / 25.0;
      var maxPairs := MaxPairs(allPairs, likelihood, a, p);
      AppendAll(maxPairs);
      r := ls;
    }

    /** The loop `for pair in max_pairs: ls.append(pair)`. */
    method AppendAll(pairs: seq<Pair>)
      modifies this
      ensures ls == old(ls) + pairs
    {
      var k := 0;
      while k < |pairs|
        invariant 0 <= k <= |pairs|
        invariant ls == old(ls) + pairs[..k]
      {
        ls := ls + [pairs[k]];
        k := k + 1;
      }
      assert pairs[..k] == pairs;
    }
  }

  // ---------------------------------------------------------------------------
  // get_best: occurrence counts, the most frequent pairs, the verdict
  // ---------------------------------------------------------------------------

  /** The number of occurrences of x in s. */
  function Count(s: seq<Pair>, x: Pair): nat
  {
    if |s| == 0 then 0
    else Count(s[..|s| - 1], x) + (if s[|s| - 1] == x then 1 else 0)
  }

  /** The distinct elements of s in order of first appearance: the keys of a dict filled from s. */
  function FirstAppearances(s: seq<Pair>): (r: seq<Pair>)
    ensures forall x :: x in r <==> x in s
  {
    if |s| == 0 then []
    else
      var f := FirstAppearances(s[..|s| - 1]);
      assert forall x :: x in s[..|s| - 1] ==> x in s;
      assert forall x :: x in s ==> x in s[..|s| - 1] || x == s[|s| - 1];
      if s[|s| - 1] in f then f else f + [s[|s| - 1]]
  }

  predicate Distinct(s: seq<Pair>)
  {
    forall i, j :: 0 <= i < j < |s| ==> s[i] != s[j]
  }

  /** No pair is a key twice. */
  lemma {:induction false} FirstAppearancesDistinct(s: seq<Pair>)
    ensures Distinct(FirstAppearances(s))
  {
    if |s| > 0 {
      FirstAppearancesDistinct(s[..|s| - 1]);
    }
  }

  /** A pair occurs in s exactly when it is counted at least once. */
  lemma {:induction false} CountPositive(s: seq<Pair>, x: Pair)
    ensures Count(s, x) > 0 <==> x in s
  {
    if |s| > 0 {
      CountPositive(s[..|s| - 1], x);
      assert forall y :: y in s[..|s| - 1] ==> y in s;
      assert x in s ==> x in s[..|s| - 1] || x == s[|s| - 1];
    }
  }

  /** The sum of the counts of the given keys. */
  function SumCounts(keys: seq<Pair>, s: seq<Pair>): nat
  {
    if |keys| == 0 then 0
    else SumCounts(keys[..|keys| - 1], s) + Count(s, keys[|keys| - 1])
  }

  /** One more element adds one to the total count of distinct keys that include it, and nothing otherwise. */
  lemma {:induction false} SumCountsExtend(keys: seq<Pair>, s: seq<Pair>, x: Pair)
    requires Distinct(keys)
    ensures SumCounts(keys, s + [x]) == SumCounts(keys, s) + (if x in keys then 1 else 0)
  {
    if |keys| > 0 {
      var front := keys[..|keys| - 1];
      assert Distinct(front);
      SumCountsExtend(front, s, x);
      assert (s + [x])[..|s + [x]| - 1] == s;
      assert x in keys <==> x in front || x == keys[|keys| - 1];
      assert x in front ==> x != keys[|keys| - 1];
    }
  }

  /** The counts of the keys of pair_cnt add up to len(ls). */
  lemma {:induction false} CountsSumToLength(s: seq<Pair>)
    ensures SumCounts(FirstAppearances(s), s) == |s|
  {
    if |s| > 0 {
      var front := s[..|s| - 1];
      var x := s[|s| - 1];
      var f := FirstAppearances(front);
      CountsSumToLength(front);
      FirstAppearancesDistinct(front);
      assert s == front + [x];
      SumCountsExtend(f, front, x);
      if x !in f {
        assert f + [x] == FirstAppearances(s);
        assert (f + [x])[..|f + [x]| - 1] == f;
        CountPositive(front, x);
      }
    }
  }

  /** max over keys of count: the loop-free reading of max(pair_cnt.values()). */
  function MaxCountOf(keys: seq<Pair>, s: seq<Pair>): nat
  {
    if |keys| == 0 then 0
    else
      var m := MaxCountOf(keys[..|keys| - 1], s);
      var c := Count(s, keys[|keys| - 1]);
      if c > m then c else m
  }

  lemma {:induction false} MaxCountOfBounds(keys: seq<Pair>, s: seq<Pair>)
    ensures forall k :: k in keys ==> Count(s, k) <= MaxCountOf(keys, s)
    ensures |keys| > 0 ==> exists k :: k in keys && Count(s, k) == MaxCountOf(keys, s)
  {
    if |keys| > 0 {
      var front := keys[..|keys| - 1];
      MaxCountOfBounds(front, s);
      assert forall k :: k in keys ==> k in front || k == keys[|keys| - 1];
      if |front| > 0 && Count(s, keys[|keys| - 1]) <= MaxCountOf(front, s) {
        var k :| k in front && Count(s, k) == MaxCountOf(front, s);
        assert k in keys;
      }
    }
  }

  /** max_cnt: the largest count. */
  function MaxCount(s: seq<Pair>): nat
  {
    MaxCountOf(FirstAppearances(s), s)
  }

  /** max_cnt is at least every count, and a non-empty list has a pair that attains it. */
  lemma MaxCountIsMaximum(s: seq<Pair>)
    ensures forall x :: x in s ==> Count(s, x) <= MaxCount(s)
    ensures |s| > 0 ==> exists x :: x in s && Count(s, x) == MaxCount(s)
  {
    MaxCountOfBounds(FirstAppearances(s), s);
    if |s| > 0 {
      assert s[0] in FirstAppearances(s);
    }
  }

  /** The max_pairs comprehension of get_best: the keys whose count is max_cnt, in key order. */
  function Modes(s: seq<Pair>): seq<Pair>
  {
    Filter(FirstAppearances(s), x => Count(s, x) == MaxCount(s))
  }

  /** The reported pairs are exactly the most frequent pairs of the list, each once. */
  lemma ModesCharacterization(s: seq<Pair>, x: Pair)
    ensures x in Modes(s) <==> x in s && forall y :: y in s ==> Count(s, y) <= Count(s, x)
    ensures |s| > 0 ==> |Modes(s)| > 0
  {
    MaxCountIsMaximum(s);
    if x in s && forall y :: y in s ==> Count(s, y) <= Count(s, x) {
      var y :| y in s && Count(s, y) == MaxCount(s);
      assert Count(s, x) == MaxCount(s);
    }
    if |s| > 0 {
      var y :| y in s && Count(s, y) == MaxCount(s);
      assert y in Modes(s);
    }
  }

  /** The position of the first occurrence of x in s. */
  function FirstIndex(s: seq<Pair>, x: Pair): (r: nat)
    requires x in s
    ensures r < |s| && s[r] == x
    ensures forall i :: 0 <= i < r ==> s[i] != x
  {
    if s[0] == x then 0 else 1 + FirstIndex(s[1..], x)
  }

  /** The elements of t occur in s, in the order of their first occurrences in s. */
  ghost predicate OrderedByFirstIndex(t: seq<Pair>, s: seq<Pair>)
  {
    (forall i :: 0 <= i < |t| ==> t[i] in s) &&
    forall i, j :: 0 <= i < j < |t| ==> FirstIndex(s, t[i]) < FirstIndex(s, t[j])
  }

  /** An element of a prefix is first found at the same place in the whole list. */
  lemma FirstIndexInPrefix(s: seq<Pair>, n: nat, x: Pair)
    requires n <= |s| && x in s[..n]
    ensures x in s && FirstIndex(s, x) == FirstIndex(s[..n], x)
  {
    var k := FirstIndex(s[..n], x);
    assert s[k] == x;
  }

  lemma OrderedInLonger(t: seq<Pair>, s: seq<Pair>, n: nat)
    requires n <= |s| && OrderedByFirstIndex(t, s[..n])
    ensures OrderedByFirstIndex(t, s)
  {
    forall i | 0 <= i < |t|
      ensures t[i] in s && FirstIndex(s, t[i]) == FirstIndex(s[..n], t[i])
    {
      FirstIndexInPrefix(s, n, t[i]);
    }
  }

  lemma AppendOrdered(t: seq<Pair>, x: Pair, s: seq<Pair>)
    requires x in s && OrderedByFirstIndex(t, s)
    requires forall i :: 0 <= i < |t| ==> FirstIndex(s, t[i]) < FirstIndex(s, x)
    ensures OrderedByFirstIndex(t + [x], s)
  {
    var g := t + [x];
    forall i, j | 0 <= i < j < |g|
      ensures FirstIndex(s, g[i]) < FirstIndex(s, g[j])
    {
      assert g[i] == t[i];
      if j < |t| {
        assert g[j] == t[j];
      }
    }
  }

  /** The keys of a dict filled from s follow the first occurrences in s. */
  lemma {:induction false} FirstAppearancesOrdered(s: seq<Pair>)
    ensures OrderedByFirstIndex(FirstAppearances(s), s)
  {
    if |s| > 0 {
      var n := |s| - 1;
      var last := s[n];
      var f := FirstAppearances(s[..n]);
      FirstAppearancesOrdered(s[..n]);
      OrderedInLonger(f, s, n);
      if last !in f {
        assert FirstIndex(s, last) == n;
        forall i | 0 <= i < |f|
          ensures FirstIndex(s, f[i]) < n
        {
          FirstIndexInPrefix(s, n, f[i]);
        }
        AppendOrdered(f, last, s);
      }
    }
  }

  lemma TailOrdered(t: seq<Pair>, s: seq<Pair>)
    requires |t| > 0 && OrderedByFirstIndex(t, s)
    ensures OrderedByFirstIndex(t[1..], s)
  {
    var tail := t[1..];
    forall i, j | 0 <= i < j < |tail|
      ensures FirstIndex(s, tail[i]) < FirstIndex(s, tail[j])
    {
      assert tail[i] == t[i + 1] && tail[j] == t[j + 1];
    }
  }

  lemma PrependOrdered(x: Pair, r: seq<Pair>, s: seq<Pair>)
    requires x in s && OrderedByFirstIndex(r, s)
    requires forall y :: y in r ==> y in s && FirstIndex(s, x) < FirstIndex(s, y)
    ensures OrderedByFirstIndex([x] + r, s)
  {
    var g := [x] + r;
    assert g[0] == x;
    assert forall k :: 0 < k < |g| ==> g[k] == r[k - 1];
    forall j | 0 < j < |g|
      ensures FirstIndex(s, g[0]) < FirstIndex(s, g[j])
    {
      assert g[j] in r;
    }
    forall i, j | 0 < i < j < |g|
      ensures FirstIndex(s, g[i]) < FirstIndex(s, g[j])
    {
      assert FirstIndex(s, r[i - 1]) < FirstIndex(s, r[j - 1]);
    }
  }

  /** Keeping only some elements keeps their order. */
  lemma {:induction false} FilterKeepsOrder(t: seq<Pair>, f: Pair -> bool, s: seq<Pair>)
    requires OrderedByFirstIndex(t, s)
    ensures OrderedByFirstIndex(Filter(t, f), s)
  {
    if |t| > 0 {
      var tail := t[1..];
      TailOrdered(t, s);
      FilterKeepsOrder(tail, f, s);
      var r := Filter(tail, f);
      if f(t[0]) {
        forall y | y in r
          ensures y in s && FirstIndex(s, t[0]) < FirstIndex(s, y)
        {
          var k :| 0 <= k < |tail| && tail[k] == y;
          assert t[k + 1] == y;
        }
        PrependOrdered(t[0], r, s);
      }
    }
  }

  /**
   The reported pairs come in the order in which they first appear in the list,
   which is the insertion order of pair_cnt; in particular none is reported twice.
   */
  lemma ModesInFirstAppearanceOrder(s: seq<Pair>)
    ensures OrderedByFirstIndex(Modes(s), s)
    ensures Distinct(Modes(s))
  {
    FirstAppearancesOrdered(s);
    FilterKeepsOrder(FirstAppearances(s), x => Count(s, x) == MaxCount(s), s);
  }

  /** What get_best reports: the most frequent pairs, their count and whether that count is convincing. */
  datatype Report = Report(maxPairs: seq<Pair>, maxCnt: nat, sure: bool)

  datatype BestError = EmptyList  // max() of no counts raises ValueError

  /** Every pair of the list is reported exactly when no pair occurs more often. */
  lemma ModesAreMostFrequent(s: seq<Pair>)
    ensures forall x :: x in Modes(s) <==> x in s && forall y :: y in s ==> Count(s, y) <= Count(s, x)
  {
    forall x
      ensures x in Modes(s) <==> x in s && forall y :: y in s ==> Count(s, y) <= Count(s, x)
    {
      ModesCharacterization(s, x);
    }
  }

  /**
   The report for a non-empty list: the most frequent pairs, each once and in
   first-appearance order, the largest count, and "OK" unless
   max_cnt < 0.45 * iteration.
   */
  function BestReport(s: seq<Pair>, iteration: int): (r: Report)
    requires |s| > 0
    ensures forall x :: x in r.maxPairs <==> x in s && forall y :: y in s ==> Count(s, y) <= Count(s, x)
    ensures OrderedByFirstIndex(r.maxPairs, s) && |r.maxPairs| > 0
    ensures forall x :: x in s ==> Count(s, x) <= r.maxCnt
    ensures exists x :: x in s && Count(s, x) == r.maxCnt
    ensures r.sure <==> !(r.maxCnt as real < 0.45 * iteration as real)
  {
    ModesAreMostFrequent(s);
    ModesInFirstAppearanceOrder(s);
    MaxCountIsMaximum(s);
    ModesCharacterization(s, s[0]);
    Report(Modes(s), MaxCount(s), !(MaxCount(s) as real < 0.45 * iteration as real))
  }

  /**
   The counting loop of get_best: pair_cnt holds, for every pair of the list,
   its number of occurrences; keys lists the pairs in insertion order.
   */
  method CountPairs(ls: seq<Pair>) returns (pairCnt: map<Pair, nat>, keys: seq<Pair>)
    ensures keys == FirstAppearances(ls)
    ensures forall x :: x in pairCnt <==> x in ls
    ensures forall x :: x in pairCnt ==> pairCnt[x] == Count(ls, x)
  {
    pairCnt := map[];
    keys := [];
    var k := 0;
    while k < |ls|
      invariant 0 <= k <= |ls|
      invariant keys == FirstAppearances(ls[..k])
      invariant forall x :: x in pairCnt <==> x in ls[..k]
      invariant forall x :: x in pairCnt ==> pairCnt[x] == Count(ls[..k], x)
    {
      var z := ls[k];
      assert ls[..k + 1][..k] == ls[..k];
      assert forall x :: Count(ls[..k + 1], x) == Count(ls[..k], x) + (if z == x then 1 else 0);
      if z !in pairCnt {
        CountPositive(ls[..k], z);
        pairCnt := pairCnt[z := 1];
        keys := keys + [z];
      } else {
        pairCnt := pairCnt[z := pairCnt[z] + 1];
      }
      k := k + 1;
    }
    assert ls[..k] == ls;
  }

  /** max(values) over the given keys of a map. */
  function MaxValueOf(keys: seq<Pair>, cnt: map<Pair, nat>): nat
    requires forall k :: k in keys ==> k in cnt
  {
    if |keys| == 0 then 0
    else
      var m := MaxValueOf(keys[..|keys| - 1], cnt);
      var c := cnt[keys[|keys| - 1]];
      if c > m then c else m
  }

  lemma {:induction false} MaxValueOfCounts(keys: seq<Pair>, cnt: map<Pair, nat>, s: seq<Pair>)
    requires forall k :: k in keys ==> k in cnt && cnt[k] == Count(s, k)
    ensures MaxValueOf(keys, cnt) == MaxCountOf(keys, s)
  {
    if |keys| > 0 {
      assert forall k :: k in keys[..|keys| - 1] ==> k in keys;
      MaxValueOfCounts(keys[..|keys| - 1], cnt, s);
    }
  }

  /**
   get_best: count the pairs, take the largest count, keep the pairs that reach
   it and compare the count with 45% of the iteration number. An empty list
   fails, as max() of no values does.
   */
  method GetBest(ls: seq<Pair>, iteration: int) returns (r: Result<Report, BestError>)
    ensures ls == [] ==> r == Err(EmptyList)
    ensures ls != [] ==> r == Ok(BestReport(ls, iteration))
  {
    var pairCnt, keys := CountPairs(ls);
    if |keys| == 0 {
      return Err(EmptyList);
    }
    var maxCnt := MaxValueOf(keys, pairCnt);
    MaxValueOfCounts(keys, pairCnt, ls);
    var maxPairs := Filter(keys, y => y in pairCnt && pairCnt[y] == maxCnt);
    FilterCongruence(keys, y => y in pairCnt && pairCnt[y] == maxCnt, x => Count(ls, x) == MaxCount(ls));
    var sure := !(maxCnt as real < 0.45 * iteration as real);
    r := Ok(Report(maxPairs, maxCnt, sure));
  }
}
