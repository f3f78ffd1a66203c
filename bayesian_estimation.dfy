/**
 The discrete recursive Bayes filter: an estimator that keeps a belief (the
 prior) over N mutually exclusive hidden states and, once per time step, turns a
 flat batch of N groups of M sensor readings into a likelihood, combines it with
 the transition term obtained from the current prior, normalises, rounds, feeds
 the result back as the next prior and reports the first most probable state.

 Numbers are exact reals. np.exp and np.round are parameters of the estimator
 (`exp`, `round`); the lemmas assume of them only that exp is positive and that
 rounding keeps non-negative numbers non-negative.
 */
module BayesianEstimation {
  import opened Results
  import opened Vectors

  /** The exceptions an update can end in. */
  datatype Error =
    | DimensionMismatch       // raised by the dimension guard of the update
    | IndexOutOfRange         // an IndexError inside the observation model
    | NormalizationViolation  // the rounded posterior does not sum to exactly 1

  /**
   A numpy float vector as the filter sees it: finite entries, or a vector
   holding NaN or infinite entries, which is what dividing by a zero sum in the
   posterior produces and what every later stage then propagates.
   */
  datatype Vec = Finite(entries: seq<real>) | NonFinite

  /** What the lemmas assume of np.exp. */
  ghost predicate ExpPositive(exp: real -> real)
  {
    forall x :: 0.0 < exp(x)
  }

  /** What the lemmas assume of np.round: it does not turn a non-negative number negative. */
  ghost predicate RoundKeepsSign(round: (real, nat) -> real)
  {
    forall x, d :: 0.0 <= x ==> 0.0 <= round(x, d)
  }

  /**
   The first m entries of v (or all of them, if there are fewer) are non-zero:
   the entries the filter divides by; entries past the m sources are never read.
   */
  predicate NonZero(v: seq<real>, m: int)
  {
    forall i :: 0 <= i < |v| && i < m ==> v[i] != 0.0
  }

  predicate IsSquare(c: seq<seq<real>>, n: int)
  {
    |c| == n && forall i :: 0 <= i < |c| ==> |c[i]| == n
  }

  predicate MatrixNonNegative(c: seq<seq<real>>)
  {
    forall i :: 0 <= i < |c| ==> NonNegative(c[i])
  }

  // ---------------------------------------------------------------------------
  // Construction: the uniform prior and the transition matrix
  // ---------------------------------------------------------------------------

  /** np.ones(n) * 1 / n. */
  function Uniform(n: nat): seq<real>
    requires n >= 1
  {
    seq(n, _ => 1.0 / n as real)
  }

  /** The initial prior is a probability distribution: n entries of 1/n summing to 1. */
  lemma UniformIsDistribution(n: nat)
    requires n >= 1
    ensures |Uniform(n)| == n
    ensures forall i :: 0 <= i < n ==> Uniform(n)[i] == 1.0 / n as real
    ensures Sum(Uniform(n)) == 1.0
  {
    SumOfConstant(Uniform(n), 1.0 / n as real);
  }

  /** np.ones((n, n)) * v. */
  function Filled(n: nat, v: real): seq<seq<real>>
  {
    seq(n, _ => seq(n, _ => v))
  }

  /** np.fill_diagonal(m, d) on a copy of m. */
  function WithDiagonal(m: seq<seq<real>>, d: real): seq<seq<real>>
  {
    seq(|m|, i requires 0 <= i < |m| =>
      seq(|m[i]|, j requires 0 <= j < |m[i]| => if i == j then d else m[i][j]))
  }

  /**
   The conditional probability table: every entry Delta/(n-1), then the
   diagonal overwritten with 1 - Delta.
   */
  function TransitionMatrix(n: nat, delta: real): (c: seq<seq<real>>)
    requires n >= 2
    ensures IsSquare(c, n)
    ensures forall i, j :: 0 <= i < n && 0 <= j < n ==>
      c[i][j] == if i == j then 1.0 - delta else delta / (n - 1) as real
  {
    WithDiagonal(Filled(n, delta / (n - 1) as real), 1.0 - delta)
  }

  /** Every row of the transition matrix sums to 1, whatever Delta is. */
  lemma TransitionRowsSumToOne(n: nat, delta: real)
    requires n >= 2
    ensures forall i :: 0 <= i < n ==> Sum(TransitionMatrix(n, delta)[i]) == 1.0
  {
    var c := TransitionMatrix(n, delta);
    var off := delta / (n - 1) as real;
    forall i | 0 <= i < n
      ensures Sum(c[i]) == 1.0
    {
      SumOfConstantWithOneException(c[i], i, off, 1.0 - delta);
      assert (n - 1) as real * off == delta;
    }
  }

  /** For 0 <= Delta <= 1 every entry of the transition matrix is non-negative. */
  lemma TransitionMatrixNonNegative(n: nat, delta: real)
    requires n >= 2 && 0.0 <= delta <= 1.0
    ensures MatrixNonNegative(TransitionMatrix(n, delta))
  {
    var c := TransitionMatrix(n, delta);
    forall i, j | 0 <= i < n && 0 <= j < n
      ensures 0.0 <= c[i][j]
    {
      if i != j {
        assert 0.0 <= delta / (n - 1) as real;
      }
    }
  }

  // ---------------------------------------------------------------------------
  // Rounding, the transition term and the posterior
  // ---------------------------------------------------------------------------

  /** get_round_result on a vector: np.round entry by entry. */
  function RoundAll(round: (real, nat) -> real, d: nat, v: seq<real>): (r: seq<real>)
    ensures |r| == |v|
  {
    seq(|v|, i requires 0 <= i < |v| => round(v[i], d))
  }

  /** get_round_result on a vector that may hold NaN or infinities: those stay. */
  function RoundVec(round: (real, nat) -> real, d: nat, v: Vec): Vec
  {
    match v
    case Finite(e) => Finite(RoundAll(round, d, e))
    case NonFinite => NonFinite
  }

  /** get_transition_model: the transition matrix times the rounded prior. */
  function TransitionModel(c: seq<seq<real>>, round: (real, nat) -> real, d: nat, prior: Vec): Vec
    requires prior.Finite? ==> forall i :: 0 <= i < |c| ==> |c[i]| == |prior.entries|
  {
    match prior
    case Finite(p) => Finite(MatVec(c, RoundAll(round, d, p)))
    case NonFinite => NonFinite
  }

  /**
   While the rounded prior is the constant vector c (the uniform prior is one),
   the transition term is that same constant vector, because rows sum to 1.
   */
  lemma TransitionOfConstantPrior(n: nat, delta: real, round: (real, nat) -> real, d: nat, p: seq<real>, c: real)
    requires n >= 2 && |p| == n
    requires AllEqual(RoundAll(round, d, p), c)
    ensures TransitionModel(TransitionMatrix(n, delta), round, d, Finite(p)) == Finite(seq(n, _ => c))
  {
    var m := TransitionMatrix(n, delta);
    TransitionRowsSumToOne(n, delta);
    var t := MatVec(m, RoundAll(round, d, p));
    forall i | 0 <= i < n
      ensures t[i] == c
    {
      DotWithConstant(m[i], RoundAll(round, d, p), c);
    }
    assert t == seq(n, _ => c);
  }

  /** A non-negative matrix applied to a non-negative prior gives a non-negative transition term. */
  lemma TransitionNonNegative(c: seq<seq<real>>, n: nat, round: (real, nat) -> real, d: nat, p: seq<real>)
    requires IsSquare(c, n) && |p| == n
    requires MatrixNonNegative(c) && RoundKeepsSign(round) && NonNegative(p)
    ensures TransitionModel(c, round, d, Finite(p)).Finite?
    ensures |TransitionModel(c, round, d, Finite(p)).entries| == n
    ensures NonNegative(TransitionModel(c, round, d, Finite(p)).entries)
  {
    var rp := RoundAll(round, d, p);
    forall i | 0 <= i < n
      ensures 0.0 <= Dot(c[i], rp)
    {
      assert NonNegative(Mul(c[i], rp)) by {
        forall j | 0 <= j < n
          ensures 0.0 <= Mul(c[i], rp)[j]
        {
          assert 0.0 <= rp[j];
        }
      }
      SumNonNegative(Mul(c[i], rp));
    }
  }

  /**
   get_posterior_belief: likelihood times transition, divided by the sum of
   that product. A zero sum divides by zero, which numpy answers with NaN or
   infinite entries.
   */
  function PosteriorBelief(o: seq<real>, t: Vec): Vec
    requires t.Finite? ==> |t.entries| == |o|
  {
    match t
    case NonFinite => NonFinite
    case Finite(tv) =>
      var s := Sum(Mul(o, tv));
      if s == 0.0 then NonFinite
      else Finite(seq(|o|, i requires 0 <= i < |o| => o[i] * tv[i] / s))
  }

  /**
   For non-negative likelihood and transition values whose product does not sum
   to zero, the posterior is a probability distribution proportional to the product.
   */
  lemma PosteriorIsDistribution(o: seq<real>, t: seq<real>)
    requires |o| == |t|
    requires NonNegative(o) && NonNegative(t)
    requires Sum(Mul(o, t)) != 0.0
    ensures PosteriorBelief(o, Finite(t)).Finite?
    ensures |PosteriorBelief(o, Finite(t)).entries| == |o|
    ensures NonNegative(PosteriorBelief(o, Finite(t)).entries)
    ensures Sum(PosteriorBelief(o, Finite(t)).entries) == 1.0
    ensures forall i :: 0 <= i < |o| ==>
      PosteriorBelief(o, Finite(t)).entries[i] * Sum(Mul(o, t)) == o[i] * t[i]
  {
    var prod := Mul(o, t);
    var s := Sum(prod);
    ProductNonNegative(o, t);
    SumNonNegative(prod);
    var q := PosteriorBelief(o, Finite(t)).entries;
    assert forall i :: 0 <= i < |o| ==> q[i] == prod[i] / s;
    QuotientsNonNegative(prod, q, s);
    QuotientsScaleBack(prod, q, s);
    assert Sum(q) == 1.0 by {
      SumOfQuotients(prod, q, s);
      QuotientBySelf(s);
    }
  }

  lemma ProductNonNegative(o: seq<real>, t: seq<real>)
    requires |o| == |t| && NonNegative(o) && NonNegative(t)
    ensures NonNegative(Mul(o, t))
  {
    forall i | 0 <= i < |o|
      ensures 0.0 <= Mul(o, t)[i]
    {
      assert 0.0 <= o[i] && 0.0 <= t[i];
    }
  }

  lemma QuotientsNonNegative(v: seq<real>, q: seq<real>, s: real)
    requires 0.0 < s && |q| == |v| && NonNegative(v)
    requires forall i :: 0 <= i < |v| ==> q[i] == v[i] / s
    ensures NonNegative(q)
  {
  }

  lemma QuotientsScaleBack(v: seq<real>, q: seq<real>, s: real)
    requires s != 0.0 && |q| == |v|
    requires forall i :: 0 <= i < |v| ==> q[i] == v[i] / s
    ensures forall i :: 0 <= i < |v| ==> q[i] * s == v[i]
  {
  }

  lemma QuotientBySelf(s: real)
    requires s != 0.0
    ensures s / s == 1.0
  {
  }

  // ---------------------------------------------------------------------------
  // The observation model
  // ---------------------------------------------------------------------------

  /** The index of the first reading of group i, i * m, counted out group by group. */
  function GroupStart(i: nat, m: nat): nat
  {
    if i == 0 then 0 else GroupStart(i - 1, m) + m
  }

  lemma {:induction false} GroupStartIsProduct(i: nat, m: nat)
    ensures GroupStart(i, m) == i * m
  {
    if i > 0 {
      GroupStartIsProduct(i - 1, m);
      assert i * m == (i - 1) * m + m;
    }
  }

  /** A later group starts at least one whole group later. */
  lemma {:induction false} GroupStartMonotone(i: nat, j: nat, m: nat)
    requires i < j
    ensures GroupStart(i, m) + m <= GroupStart(j, m)
  {
    if i < j - 1 {
      GroupStartMonotone(i, j - 1, m);
    }
  }

  /** A group boundary below the start of group i + 1 is at most the start of group i. */
  lemma GroupBoundaryBelow(g: nat, i: nat, m: nat)
    requires m >= 1 && GroupStart(g, m) < GroupStart(i + 1, m)
    ensures GroupStart(g, m) <= GroupStart(i, m)
  {
    if g > i {
      GroupStartMonotone(i + 1, g, m);
    } else if g < i {
      GroupStartMonotone(g, i, m);
    }
  }

  /**
   Readings start .. start + len - 1, each divided by the normalization value
   of its source (reading start + z comes from source z).
   */
  function ScaledSlice(obs: seq<real>, nv: seq<real>, start: nat, len: nat): (r: seq<real>)
    requires start + len <= |obs| && len <= |nv| && NonZero(nv, len)
    ensures |r| == len
  {
    seq(len, z requires 0 <= z < len => obs[start + z] / nv[z])
  }

  /** exp(-value / weight), source by source. */
  function Exponentials(p: seq<real>, w: seq<real>, exp: real -> real): (r: seq<real>)
    requires |p| <= |w| && NonZero(w, |p|)
    ensures |r| == |p|
  {
    seq(|p|, z requires 0 <= z < |p| => exp(-p[z] / w[z]))
  }

  /**
   The likelihood of the hidden state whose group of readings starts at
   `start`: the product of the exponentials of its m scaled readings.
   */
  function GroupLikelihood(obs: seq<real>, nv: seq<real>, w: seq<real>, m: nat, exp: real -> real, start: nat): real
    requires start + m <= |obs| && m <= |nv| && m <= |w|
    requires NonZero(nv, m) && NonZero(w, m)
  {
    Prod(Exponentials(ScaledSlice(obs, nv, start, m), w, exp))
  }

  /**
   get_observation_model, stated declaratively. Its loops raise IndexError
   unless the batch holds at least n complete groups and both the
   normalization values and the weights cover all m sources; readings past the
   first n groups are never used.
   */
  function ObservationModel(obs: seq<real>, nv: seq<real>, w: seq<real>, n: nat, m: nat, exp: real -> real)
    : (r: Result<seq<real>, Error>)
    requires m >= 1 && NonZero(nv, m) && NonZero(w, m)
    ensures r.Ok? ==> |r.value| == n
  {
    if |obs| < GroupStart(n, m) || |nv| < m || |w| < m then Err(IndexOutOfRange)
    else Ok(Likelihoods(obs, nv, w, m, exp, n))
  }

  /** The likelihoods of the first k hidden states, one group of readings each. */
  function Likelihoods(obs: seq<real>, nv: seq<real>, w: seq<real>, m: nat, exp: real -> real, k: nat): (r: seq<real>)
    requires GroupStart(k, m) <= |obs| && (k > 0 ==> m <= |nv| && m <= |w|)
    requires NonZero(nv, m) && NonZero(w, m)
    ensures |r| == k
  {
    if k == 0 then []
    else Likelihoods(obs, nv, w, m, exp, k - 1) + [GroupLikelihood(obs, nv, w, m, exp, GroupStart(k - 1, m))]
  }

  /** Entry j of the likelihoods is the likelihood of the group that starts at GroupStart(j, m). */
  lemma {:induction false} LikelihoodsAt(obs: seq<real>, nv: seq<real>, w: seq<real>, m: nat, exp: real -> real,
                                         k: nat, j: nat)
    requires GroupStart(k, m) <= |obs| && m <= |nv| && m <= |w|
    requires NonZero(nv, m) && NonZero(w, m) && j < k
    ensures GroupStart(j, m) + m <= |obs|
    ensures Likelihoods(obs, nv, w, m, exp, k)[j] == GroupLikelihood(obs, nv, w, m, exp, GroupStart(j, m))
  {
    GroupStartMonotone(j, k, m);
    if j < k - 1 {
      LikelihoodsAt(obs, nv, w, m, exp, k - 1, j);
    }
  }

  /**
   The observation model succeeds exactly when the batch holds n complete
   groups and the normalization values and weights cover the m sources.
   */
  lemma ObservationModelSucceedsExactly(obs: seq<real>, nv: seq<real>, w: seq<real>, n: nat, m: nat, exp: real -> real)
    requires m >= 1 && NonZero(nv, m) && NonZero(w, m)
    ensures ObservationModel(obs, nv, w, n, m, exp).Ok? <==> n * m <= |obs| && m <= |nv| && m <= |w|
    ensures ObservationModel(obs, nv, w, n, m, exp).Err? ==>
      ObservationModel(obs, nv, w, n, m, exp).error == IndexOutOfRange
  {
    GroupStartIsProduct(n, m);
  }

  /**
   A successful observation model gives one positive likelihood per hidden
   state: entry i is the product of the exponentials of the m readings of
   group i.
   */
  lemma ObservationModelEntries(obs: seq<real>, nv: seq<real>, w: seq<real>, n: nat, m: nat, exp: real -> real)
    requires m >= 1 && NonZero(nv, m) && NonZero(w, m)
    requires ExpPositive(exp)
    requires ObservationModel(obs, nv, w, n, m, exp).Ok?
    ensures |ObservationModel(obs, nv, w, n, m, exp).value| == n
    ensures Positive(ObservationModel(obs, nv, w, n, m, exp).value)
    ensures forall i :: 0 <= i < n ==> (GroupStart(i, m) + m <= |obs| &&
        ObservationModel(obs, nv, w, n, m, exp).value[i] ==
        Prod(seq(m, z requires 0 <= z < m => exp(-(obs[GroupStart(i, m) + z] / nv[z]) / w[z]))))
  {
    var r := ObservationModel(obs, nv, w, n, m, exp);
    forall i | 0 <= i < n
      ensures 0.0 < r.value[i]
      ensures GroupStart(i, m) + m <= |obs|
      ensures r.value[i] == Prod(seq(m, z requires 0 <= z < m => exp(-(obs[GroupStart(i, m) + z] / nv[z]) / w[z])))
    {
      LikelihoodsAt(obs, nv, w, m, exp, n, i);
      GroupLikelihoodFormula(obs, nv, w, m, exp, GroupStart(i, m));
    }
  }

  /** Entry i of the observation model, with group i written as the readings i*m .. i*m + m - 1. */
  lemma ObservationModelEntry(obs: seq<real>, nv: seq<real>, w: seq<real>, n: nat, m: nat, exp: real -> real, i: nat)
    requires m >= 1 && NonZero(nv, m) && NonZero(w, m)
    requires ExpPositive(exp)
    requires ObservationModel(obs, nv, w, n, m, exp).Ok? && i < n
    ensures i * m + m <= |obs|
    ensures ObservationModel(obs, nv, w, n, m, exp).value[i] ==
        Prod(seq(m, z requires 0 <= z < m => exp(-(obs[i * m + z] / nv[z]) / w[z])))
  {
    ObservationModelEntries(obs, nv, w, n, m, exp);
    GroupStartIsProduct(i, m);
  }

  /** A group's likelihood is a product of exponentials, and it is positive. */
  lemma GroupLikelihoodFormula(obs: seq<real>, nv: seq<real>, w: seq<real>, m: nat, exp: real -> real, start: nat)
    requires start + m <= |obs| && m <= |nv| && m <= |w|
    requires NonZero(nv, m) && NonZero(w, m) && ExpPositive(exp)
    ensures GroupLikelihood(obs, nv, w, m, exp, start) ==
      Prod(seq(m, z requires 0 <= z < m => exp(-(obs[start + z] / nv[z]) / w[z])))
    ensures 0.0 < GroupLikelihood(obs, nv, w, m, exp, start)
  {
    var terms := Exponentials(ScaledSlice(obs, nv, start, m), w, exp);
    assert terms == seq(m, z requires 0 <= z < m => exp(-(obs[start + z] / nv[z]) / w[z]));
    ProdPositive(terms);
  }

  /** A group's likelihood depends on the readings of that group alone. */
  lemma GroupLikelihoodUsesOnlyItsGroup(
    obs1: seq<real>, obs2: seq<real>, nv: seq<real>, w: seq<real>, m: nat, exp: real -> real, start: nat)
    requires start + m <= |obs1| && start + m <= |obs2| && m <= |nv| && m <= |w|
    requires NonZero(nv, m) && NonZero(w, m)
    requires obs1[start..start + m] == obs2[start..start + m]
    ensures GroupLikelihood(obs1, nv, w, m, exp, start) == GroupLikelihood(obs2, nv, w, m, exp, start)
  {
    forall z | 0 <= z < m
      ensures ScaledSlice(obs1, nv, start, m)[z] == ScaledSlice(obs2, nv, start, m)[z]
    {
      assert obs1[start + z] == obs1[start..start + m][z];
      assert obs2[start + z] == obs2[start..start + m][z];
    }
    assert ScaledSlice(obs1, nv, start, m) == ScaledSlice(obs2, nv, start, m);
  }

  /** The likelihoods of the first k groups ignore the readings after them. */
  lemma {:induction false} LikelihoodsIgnoreLaterReadings(obs: seq<real>, nv: seq<real>, w: seq<real>, m: nat,
                                                          exp: real -> real, k: nat, len: nat)
    requires GroupStart(k, m) <= len <= |obs| && m <= |nv| && m <= |w|
    requires NonZero(nv, m) && NonZero(w, m)
    ensures Likelihoods(obs, nv, w, m, exp, k) == Likelihoods(obs[..len], nv, w, m, exp, k)
  {
    if k > 0 {
      LikelihoodsIgnoreLaterReadings(obs, nv, w, m, exp, k - 1, len);
      var start := GroupStart(k - 1, m);
      assert obs[start..start + m] == obs[..len][start..start + m];
      GroupLikelihoodUsesOnlyItsGroup(obs, obs[..len], nv, w, m, exp, start);
    }
  }

  /** Readings past the first n groups do not affect the observation model. */
  lemma ObservationModelIgnoresExtraReadings(obs: seq<real>, nv: seq<real>, w: seq<real>, n: nat, m: nat, exp: real -> real)
    requires m >= 1 && NonZero(nv, m) && NonZero(w, m)
    requires n * m <= |obs|
    ensures ObservationModel(obs, nv, w, n, m, exp) == ObservationModel(obs[..n * m], nv, w, n, m, exp)
  {
    GroupStartIsProduct(n, m);
    if m <= |nv| && m <= |w| {
      LikelihoodsIgnoreLaterReadings(obs, nv, w, m, exp, n, n * m);
    }
  }

  // ---------------------------------------------------------------------------
  // The two passes of get_observation_model
  // ---------------------------------------------------------------------------

  /** Multiplying by a positive m keeps the sign and magnifies a non-zero factor. */
  lemma MultiplyByPositive(k: int, m: int)
    requires m > 0
    ensures k >= 1 ==> k * m >= m
    ensures k <= -1 ==> k * m <= -m
  {
    if k >= 1 {
      assert k * m == m + (k - 1) * m;
    } else if k <= -1 {
      assert k * m == -m + (k + 1) * m;
    }
  }

  lemma DivModUnique(x: int, m: int, q: int, r: int)
    requires m > 0 && 0 <= r < m && x == q * m + r
    ensures x / m == q && x % m == r
  {
    var q', r' := x / m, x % m;
    assert x == q' * m + r';
    assert (q - q') * m == r' - r;
    MultiplyByPositive(q - q', m);
  }

  /**
   The test `idx % m == 0` of the first pass: between the start of group g and
   the start of group g + 1, only the latter is a multiple of m.
   */
  lemma NextMultiple(g: nat, x: int, m: nat)
    requires m >= 1 && GroupStart(g, m) < x <= GroupStart(g, m) + m
    ensures x % m == 0 <==> x == GroupStart(g, m) + m
  {
    GroupStartIsProduct(g, m);
    if x == GroupStart(g, m) + m {
      DivModUnique(x, m, g + 1, 0);
    } else {
      DivModUnique(x, m, g, x - GroupStart(g, m));
    }
  }

  /** The first pass over g complete groups: their scaled readings, one group after another. */
  function ScaleGroups(obs: seq<real>, nv: seq<real>, m: nat, g: nat): (r: seq<real>)
    requires GroupStart(g, m) <= |obs| && (g > 0 ==> m <= |nv|) && NonZero(nv, m)
    ensures |r| == GroupStart(g, m)
  {
    if g == 0 then []
    else ScaleGroups(obs, nv, m, g - 1) + ScaledSlice(obs, nv, GroupStart(g - 1, m), m)
  }

  /**
   What the first pass of get_observation_model leaves: the g groups that are
   complete in the batch (a last, incomplete group is dropped), scaled.
   */
  predicate ScaledGroups(v: seq<real>, obs: seq<real>, nv: seq<real>, m: nat, g: nat)
    requires NonZero(nv, m)
  {
    GroupStart(g, m) <= |obs| < GroupStart(g, m) + m &&
    (g > 0 ==> m <= |nv|) &&
    v == ScaleGroups(obs, nv, m, g)
  }

  lemma ScaledSliceExtend(obs: seq<real>, nv: seq<real>, start: nat, len: nat)
    requires start + len < |obs| && len < |nv| && NonZero(nv, len + 1)
    ensures ScaledSlice(obs, nv, start, len + 1) ==
      ScaledSlice(obs, nv, start, len) + [obs[start + len] / nv[len]]
  {
    assert ScaledSlice(obs, nv, start, len + 1)[..len] == ScaledSlice(obs, nv, start, len);
  }

  /** Group i of the scaled readings is the scaled group i of the batch. */
  lemma {:induction false} GroupOfScaledGroups(obs: seq<real>, nv: seq<real>, m: nat, g: nat, i: nat)
    requires i < g && GroupStart(g, m) <= |obs| && m <= |nv| && NonZero(nv, m)
    ensures GroupStart(i, m) + m <= GroupStart(g, m)
    ensures ScaleGroups(obs, nv, m, g)[GroupStart(i, m)..GroupStart(i, m) + m] ==
      ScaledSlice(obs, nv, GroupStart(i, m), m)
  {
    GroupStartMonotone(i, g, m);
    var front := ScaleGroups(obs, nv, m, g - 1);
    var last := ScaledSlice(obs, nv, GroupStart(g - 1, m), m);
    assert ScaleGroups(obs, nv, m, g) == front + last;
    if i < g - 1 {
      GroupOfScaledGroups(obs, nv, m, g - 1, i);
      assert (front + last)[GroupStart(i, m)..GroupStart(i, m) + m] ==
        front[GroupStart(i, m)..GroupStart(i, m) + m];
    } else {
      assert (front + last)[|front|..|front| + m] == last;
    }
  }

  /** A group of the scaled list that is present in full is the scaled group of the batch. */
  lemma PairedIsGroup(v: seq<real>, obs: seq<real>, nv: seq<real>, m: nat, g: nat, i: nat, paired: seq<real>)
    requires m >= 1 && NonZero(nv, m) && ScaledGroups(v, obs, nv, m, g)
    requires GroupStart(i, m) + m <= |v| && paired == v[GroupStart(i, m)..][..m]
    ensures GroupStart(i, m) + m <= |obs| && m <= |nv|
    ensures paired == ScaledSlice(obs, nv, GroupStart(i, m), m)
  {
    if g <= i {
      if g < i {
        GroupStartMonotone(g, i, m);
      }
      assert false;
    }
    GroupOfScaledGroups(obs, nv, m, g, i);
    assert paired == v[GroupStart(i, m)..GroupStart(i, m) + m];
  }

  /**
   One step of the second pass: when the next m values are all present, their
   product of exponentials is the likelihood of hidden state i.
   */
  lemma MultiplyGroupsStep(v: seq<real>, obs: seq<real>, nv: seq<real>, w: seq<real>, m: nat, exp: real -> real,
                           g: nat, i: nat, rest: seq<real>, paired: seq<real>, value: real)
    requires m >= 1 && NonZero(nv, m) && NonZero(w, m) && ScaledGroups(v, obs, nv, m, g)
    requires GroupStart(i, m) <= |v| && rest == v[GroupStart(i, m)..] && m <= |w|
    requires paired == rest[..if m <= |rest| then m else |rest|] && m <= |paired|
    requires value == Prod(Exponentials(paired[..m], w, exp))
    ensures m <= |rest| && GroupStart(i + 1, m) <= |v| && rest[m..] == v[GroupStart(i + 1, m)..]
    ensures GroupStart(i + 1, m) <= |obs| && m <= |nv|
    ensures value == GroupLikelihood(obs, nv, w, m, exp, GroupStart(i, m))
  {
    assert GroupStart(i + 1, m) == GroupStart(i, m) + m;
    DropTwice(v, GroupStart(i, m), m);
    PairedIsGroup(v, obs, nv, m, g, i, paired);
    assert paired[..m] == paired;
    ProductIsGroupLikelihood(paired[..m], obs, nv, w, m, exp, GroupStart(i, m));
  }

  lemma DropTwice(s: seq<real>, a: nat, b: nat)
    requires a + b <= |s|
    ensures s[a..][b..] == s[a + b..]
  {
  }

  lemma ProductIsGroupLikelihood(p: seq<real>, obs: seq<real>, nv: seq<real>, w: seq<real>, m: nat,
                                 exp: real -> real, start: nat)
    requires start + m <= |obs| && m <= |nv| && m <= |w| && NonZero(nv, m) && NonZero(w, m)
    requires p == ScaledSlice(obs, nv, start, m)
    ensures Prod(Exponentials(p, w, exp)) == GroupLikelihood(obs, nv, w, m, exp, start)
  {
  }

  lemma LikelihoodsExtend(obs: seq<real>, nv: seq<real>, w: seq<real>, m: nat, exp: real -> real, k: nat)
    requires GroupStart(k + 1, m) <= |obs| && m <= |nv| && m <= |w| && NonZero(nv, m) && NonZero(w, m)
    ensures Likelihoods(obs, nv, w, m, exp, k + 1) ==
      Likelihoods(obs, nv, w, m, exp, k) + [GroupLikelihood(obs, nv, w, m, exp, GroupStart(k, m))]
  {
  }

  /** When group i of the scaled list is cut short, the batch holds fewer than n groups. */
  lemma ShortGroupMeansShortBatch(v: seq<real>, obs: seq<real>, nv: seq<real>, m: nat, g: nat, i: nat, n: nat)
    requires m >= 1 && NonZero(nv, m) && ScaledGroups(v, obs, nv, m, g)
    requires i < n && GroupStart(i, m) <= |v| < GroupStart(i, m) + m
    ensures |obs| < GroupStart(n, m)
  {
    GroupBoundaryBelow(g, i, m);
    if i + 1 < n {
      GroupStartMonotone(i + 1, n, m);
    }
  }

  lemma ExponentialsExtend(p: seq<real>, w: seq<real>, exp: real -> real, k: nat)
    requires k < |p| && k < |w| && NonZero(w, k + 1)
    ensures Exponentials(p[..k + 1], w, exp) == Exponentials(p[..k], w, exp) + [exp(-p[k] / w[k])]
  {
    assert Exponentials(p[..k + 1], w, exp)[..k] == Exponentials(p[..k], w, exp);
  }

  // ---------------------------------------------------------------------------
  // Decision and the whole update
  // ---------------------------------------------------------------------------

  /** The estimator's fixed parameters, as get_bayesian_update reads them. */
  datatype Config = Config(
    hiddenVariables: int,
    totalObservations: int,
    normalizationValue: seq<real>,
    weights: seq<real>,
    conditionalProbability: seq<seq<real>>,
    decimalPlaces: nat,
    exp: real -> real,
    round: (real, nat) -> real)

  predicate ValidConfig(c: Config)
  {
    c.hiddenVariables >= 2 && c.totalObservations >= 1 &&
    NonZero(c.normalizationValue, c.totalObservations) && NonZero(c.weights, c.totalObservations) &&
    IsSquare(c.conditionalProbability, c.hiddenVariables)
  }

  /**
   Only the first M normalization values and weights are divided by, so a zero
   past them does not stop an estimator from being configured: N = 3, M = 2,
   normalization values [180, 25, 0], weights [0.6, 0.4].
   */
  lemma UnreadZerosAreAccepted(delta: real, exp: real -> real, round: (real, nat) -> real)
    ensures ValidConfig(Config(3, 2, [180.0, 25.0, 0.0], [0.6, 0.4], TransitionMatrix(3, delta), 2, exp, round))
  {
  }

  /** A belief of the right length, or the NaN vector. */
  predicate WellSized(c: Config, prior: Vec)
  {
    prior.Finite? ==> |prior.entries| == c.hiddenVariables
  }

  /**
   The dimension guard exactly as written: it raises only when BOTH the source
   count check and the batch length check fail.
   */
  predicate DimensionGuardRaises(c: Config, observations: seq<real>)
  {
    !(c.totalObservations == |c.weights| && |c.weights| == |c.normalizationValue|) &&
    !(c.hiddenVariables * c.totalObservations == |observations|)
  }

  /** What one update returns and the prior it leaves behind. */
  datatype Outcome = Outcome(result: Result<nat, Error>, prior: Vec)

  /**
   get_maximum_and_recursion: the posterior becomes the prior before it is
   checked; only a posterior summing to exactly 1 yields an index.
   */
  function MaximumAndRecursion(posterior: Vec): (o: Outcome)
    ensures o.prior == posterior
    ensures o.result.Ok? <==> posterior.Finite? && Sum(posterior.entries) == 1.0
    ensures o.result.Err? ==> o.result.error == NormalizationViolation
    ensures o.result.Ok? ==>
      (o.result.value < |posterior.entries| &&
       (forall j :: 0 <= j < |posterior.entries| ==> posterior.entries[j] <= posterior.entries[o.result.value]) &&
       (forall j :: 0 <= j < o.result.value ==> posterior.entries[j] < posterior.entries[o.result.value]))
  {
    if posterior.Finite? && Sum(posterior.entries) == 1.0 then
      Outcome(Ok(ArgMax(posterior.entries)), posterior)
    else
      Outcome(Err(NormalizationViolation), posterior)
  }

  /** The rounded likelihood of a batch the observation model accepted. */
  function RoundedLikelihood(c: Config, observations: seq<real>): (r: seq<real>)
    requires ValidConfig(c)
    requires ObservationModel(observations, c.normalizationValue, c.weights,
      c.hiddenVariables, c.totalObservations, c.exp).Ok?
    ensures |r| == c.hiddenVariables
  {
    RoundAll(c.round, c.decimalPlaces, ObservationModel(observations, c.normalizationValue, c.weights,
      c.hiddenVariables, c.totalObservations, c.exp).value)
  }

  /** The rounded posterior computed from the rounded likelihood and the rounded transition term. */
  function RoundedPosterior(c: Config, prior: Vec, likelihood: seq<real>): (r: Vec)
    requires ValidConfig(c) && WellSized(c, prior) && |likelihood| == c.hiddenVariables
    ensures WellSized(c, r)
  {
    var transition := RoundVec(c.round, c.decimalPlaces,
      TransitionModel(c.conditionalProbability, c.round, c.decimalPlaces, prior));
    RoundVec(c.round, c.decimalPlaces, PosteriorBelief(likelihood, transition))
  }

  /** get_bayesian_update, as a function of the parameters, the old prior and the batch. */
  function Update(c: Config, prior: Vec, observations: seq<real>): (o: Outcome)
    requires ValidConfig(c) && WellSized(c, prior)
    ensures WellSized(c, o.prior)
  {
    if DimensionGuardRaises(c, observations) then
      Outcome(Err(DimensionMismatch), prior)
    else
      match ObservationModel(observations, c.normalizationValue, c.weights,
        c.hiddenVariables, c.totalObservations, c.exp)
      case Err(e) => Outcome(Err(e), prior)
      case Ok(_) => MaximumAndRecursion(RoundedPosterior(c, prior, RoundedLikelihood(c, observations)))
  }

  /**
   The guard raises DimensionMismatch only when both dimension conditions fail,
   and then the prior is untouched.
   */
  lemma DimensionMismatchOnlyWhenBothFail(c: Config, prior: Vec, observations: seq<real>)
    requires ValidConfig(c) && WellSized(c, prior)
    ensures Update(c, prior, observations).result == Err(DimensionMismatch) <==>
      !(c.totalObservations == |c.weights| && |c.weights| == |c.normalizationValue|) &&
      !(c.hiddenVariables * c.totalObservations == |observations|)
    ensures Update(c, prior, observations).result == Err(DimensionMismatch) ==>
      Update(c, prior, observations).prior == prior
  {
  }

  /** Only the normalisation check can fail after the prior has been overwritten. */
  lemma PriorKeptUnlessPosteriorComputed(c: Config, prior: Vec, observations: seq<real>)
    requires ValidConfig(c) && WellSized(c, prior)
    ensures (Update(c, prior, observations).result.Err? &&
             Update(c, prior, observations).result.error != NormalizationViolation) ==>
      Update(c, prior, observations).prior == prior
  {
  }

  /**
   A successful update returns the first arg-max of the new prior, a state in
   [0, N), and the new prior is the rounded posterior of the rounded likelihood
   and rounded transition term; it sums to 1.
   */
  lemma SuccessfulUpdate(c: Config, prior: Vec, observations: seq<real>)
    requires ValidConfig(c) && WellSized(c, prior)
    requires Update(c, prior, observations).result.Ok?
    ensures !DimensionGuardRaises(c, observations)
    ensures ObservationModel(observations, c.normalizationValue, c.weights,
      c.hiddenVariables, c.totalObservations, c.exp).Ok?
    ensures Update(c, prior, observations).prior ==
      RoundedPosterior(c, prior, RoundedLikelihood(c, observations))
    ensures Update(c, prior, observations).prior.Finite?
    ensures |Update(c, prior, observations).prior.entries| == c.hiddenVariables
    ensures Sum(Update(c, prior, observations).prior.entries) == 1.0
    ensures Update(c, prior, observations).result.value < c.hiddenVariables
    ensures Update(c, prior, observations).result.value == ArgMax(Update(c, prior, observations).prior.entries)
  {
  }

  /**
   A batch whose dimensions are right never ends in DimensionMismatch or
   IndexOutOfRange: either it yields a state or the normalisation check fails.
   */
  lemma WellFormedBatchReachesDecision(c: Config, prior: Vec, observations: seq<real>)
    requires ValidConfig(c) && WellSized(c, prior)
    requires c.totalObservations == |c.weights| == |c.normalizationValue|
    requires c.hiddenVariables * c.totalObservations == |observations|
    ensures Update(c, prior, observations).result.Ok? ||
      Update(c, prior, observations).result == Err(NormalizationViolation)
  {
    GroupStartIsProduct(c.hiddenVariables, c.totalObservations);
  }

  /**
   Because the guard needs both checks to fail, a batch with too many readings
   passes it when the source counts agree, and its surplus readings are ignored.
   */
  lemma OverlongBatchIsAccepted(c: Config, prior: Vec, observations: seq<real>)
    requires ValidConfig(c) && WellSized(c, prior)
    requires c.totalObservations == |c.weights| == |c.normalizationValue|
    requires c.hiddenVariables * c.totalObservations < |observations|
    ensures Update(c, prior, observations).result != Err(DimensionMismatch)
    ensures Update(c, prior, observations) ==
      Update(c, prior, observations[..c.hiddenVariables * c.totalObservations])
  {
    var n, m := c.hiddenVariables, c.totalObservations;
    ObservationModelIgnoresExtraReadings(observations, c.normalizationValue, c.weights, n, m, c.exp);
    assert |observations[..n * m]| == n * m;
  }

  /**
   Likewise a batch with too few readings passes the guard when the source
   counts agree, and then fails inside the observation model with an index
   error instead of DimensionMismatch; the prior is untouched.
   */
  lemma ShortBatchFailsInObservationModel(c: Config, prior: Vec, observations: seq<real>)
    requires ValidConfig(c) && WellSized(c, prior)
    requires c.totalObservations == |c.weights| == |c.normalizationValue|
    requires |observations| < c.hiddenVariables * c.totalObservations
    ensures Update(c, prior, observations) == Outcome(Err(IndexOutOfRange), prior)
  {
    GroupStartIsProduct(c.hiddenVariables, c.totalObservations);
  }

  /**
   Once the prior holds NaN (after a posterior whose product summed to zero),
   every later update fails and the prior stays NaN.
   */
  lemma NonFinitePriorIsAbsorbing(c: Config, observations: seq<real>)
    requires ValidConfig(c)
    ensures Update(c, NonFinite, observations).result.Err?
    ensures Update(c, NonFinite, observations).prior == NonFinite
  {
  }

  /** The belief invariant: a finite belief stays non-negative across every update. */
  predicate BeliefNonNegative(prior: Vec)
  {
    prior.Finite? ==> NonNegative(prior.entries)
  }

  /**
   With a positive exp, sign-preserving rounding and a non-negative transition
   matrix, every update keeps a non-negative belief non-negative, whatever its
   outcome.
   */
  lemma UpdateKeepsBeliefNonNegative(c: Config, prior: Vec, observations: seq<real>)
    requires ValidConfig(c) && WellSized(c, prior)
    requires ExpPositive(c.exp) && RoundKeepsSign(c.round)
    requires MatrixNonNegative(c.conditionalProbability)
    requires BeliefNonNegative(prior)
    ensures BeliefNonNegative(Update(c, prior, observations).prior)
  {
    var n, m := c.hiddenVariables, c.totalObservations;
    var om := ObservationModel(observations, c.normalizationValue, c.weights, n, m, c.exp);
    if !DimensionGuardRaises(c, observations) && om.Ok? && prior.Finite? {
      ObservationModelEntries(observations, c.normalizationValue, c.weights, n, m, c.exp);
      var likelihood := RoundedLikelihood(c, observations);
      assert NonNegative(likelihood) by {
        forall i | 0 <= i < n
          ensures 0.0 <= likelihood[i]
        {
          assert 0.0 < om.value[i];
        }
      }
      TransitionNonNegative(c.conditionalProbability, n, c.round, c.decimalPlaces, prior.entries);
      var t := TransitionModel(c.conditionalProbability, c.round, c.decimalPlaces, prior);
      var transition := RoundVec(c.round, c.decimalPlaces, t);
      assert NonNegative(transition.entries) by {
        forall i | 0 <= i < n
          ensures 0.0 <= transition.entries[i]
        {
          assert 0.0 <= t.entries[i];
        }
      }
      var posterior := PosteriorBelief(likelihood, transition);
      if Sum(Mul(likelihood, transition.entries)) != 0.0 {
        PosteriorIsDistribution(likelihood, transition.entries);
        var rounded := RoundVec(c.round, c.decimalPlaces, posterior);
        forall i | 0 <= i < n
          ensures 0.0 <= rounded.entries[i]
        {
          assert 0.0 <= posterior.entries[i];
        }
      }
    }
  }

  // ---------------------------------------------------------------------------
  // The estimator object
  // ---------------------------------------------------------------------------

  /**
   RecursiveBayesianEstimation: fixed parameters and the one piece of state
   that every update overwrites, the prior.
   */
  class RecursiveBayesianEstimation {
    const hiddenVariables: int
    const totalObservations: int
    const normalizationValue: seq<real>
    const weights: seq<real>
    const delta: real
    const conditionalProbability: seq<seq<real>>
    const decimalPlaces: nat
    const exp: real -> real
    const round: (real, nat) -> real
    var prior: Vec

    function Configuration(): Config
    {
      Config(hiddenVariables, totalObservations, normalizationValue, weights,
        conditionalProbability, decimalPlaces, exp, round)
    }

    ghost predicate Valid()
      reads this
    {
      ValidConfig(Configuration()) &&
      conditionalProbability == TransitionMatrix(hiddenVariables, delta) &&
      decimalPlaces == 2 &&
      WellSized(Configuration(), prior)
    }

    /** __init__: uniform prior, the transition matrix built from Delta, two decimal places. */
    constructor (hiddenVariables: int, totalObservations: int, normalizationValue: seq<real>,
                 weights: seq<real>, delta: real, exp: real -> real, round: (real, nat) -> real)
      requires hiddenVariables >= 2 && totalObservations >= 1
      requires NonZero(normalizationValue, totalObservations) && NonZero(weights, totalObservations)
      ensures Valid()
      ensures this.hiddenVariables == hiddenVariables && this.totalObservations == totalObservations
      ensures this.normalizationValue == normalizationValue && this.weights == weights
      ensures this.delta == delta && this.exp == exp && this.round == round
      ensures prior == Finite(Uniform(hiddenVariables))
    {
      this.hiddenVariables := hiddenVariables;
      this.totalObservations := totalObservations;
      this.normalizationValue := normalizationValue;
      this.weights := weights;
      this.delta := delta;
      this.exp := exp;
      this.round := round;
      prior := Finite(Uniform(hiddenVariables));
      conditionalProbability := TransitionMatrix(hiddenVariables, delta);
      decimalPlaces := 2;
    }

    /**
     The first pass of get_observation_model: every time a complete group of
     m readings has been seen, its readings are divided by the normalization
     values of their sources and appended to one flat list. The ghost result
     counts the groups.
     */
    method ScaleReadings(observations: seq<real>) returns (r: Result<seq<real>, Error>, ghost groups: nat)
      requires totalObservations >= 1 && NonZero(normalizationValue, totalObservations)
      ensures r.Err? <==> totalObservations <= |observations| && |normalizationValue| < totalObservations
      ensures r.Err? ==> r.error == IndexOutOfRange
      ensures r.Ok? ==> ScaledGroups(r.value, observations, normalizationValue, totalObservations, groups)
    {
      var m := totalObservations;
      var nv := normalizationValue;
      var valuesObsModel: seq<real> := [];
      groups := 0;
      var idx := 0;
      while idx < |observations|
        invariant 0 <= idx <= |observations|
        invariant GroupStart(groups, m) <= idx < GroupStart(groups, m) + m
        invariant groups > 0 ==> m <= |nv|
        invariant valuesObsModel == ScaleGroups(observations, nv, m, groups)
      {
        var next := idx + 1;
        NextMultiple(groups, next, m);
        if next % m == 0 {
          var start := next - m;
          var z := 0;
          while z < m
            invariant 0 <= z <= m && z <= |nv|
            invariant valuesObsModel == ScaleGroups(observations, nv, m, groups) + ScaledSlice(observations, nv, start, z)
          {
            if z >= |nv| {
              return Err(IndexOutOfRange), groups;
            }
            ScaledSliceExtend(observations, nv, start, z);
            valuesObsModel := valuesObsModel + [observations[start + z] / nv[z]];
            z := z + 1;
          }
          groups := groups + 1;
        }
        idx := next;
      }
      r := Ok(valuesObsModel);
    }

    /**
     get_observation_model: scale the readings group by group, then multiply the
     exponentials of each group, one group per hidden state.
     */
    method GetObservationModel(observations: seq<real>) returns (r: Result<seq<real>, Error>)
      requires hiddenVariables >= 1 && totalObservations >= 1
      requires NonZero(normalizationValue, totalObservations) && NonZero(weights, totalObservations)
      ensures r == ObservationModel(observations, normalizationValue, weights,
        hiddenVariables, totalObservations, exp)
    {
      var scaling;
      ghost var groups;
      scaling, groups := ScaleReadings(observations);
      if scaling.Err? {
        return Err(scaling.error);
      }
      r := MultiplyGroups(scaling.value, observations, groups);
    }

    /**
     The second pass of get_observation_model: the scaled list is taken m values
     at a time, one group per hidden state.
     */
    method MultiplyGroups(valuesObsModel: seq<real>, ghost observations: seq<real>, ghost groups: nat)
      returns (r: Result<seq<real>, Error>)
      requires hiddenVariables >= 1 && totalObservations >= 1
      requires NonZero(normalizationValue, totalObservations) && NonZero(weights, totalObservations)
      requires ScaledGroups(valuesObsModel, observations, normalizationValue, totalObservations, groups)
      ensures r == ObservationModel(observations, normalizationValue, weights,
        hiddenVariables, totalObservations, exp)
    {
      var m := totalObservations;
      var rest := valuesObsModel;
      var observationOutput: seq<real> := [];
      var i := 0;
      while i < hiddenVariables
        invariant 0 <= i <= hiddenVariables
        invariant GroupStart(i, m) <= |valuesObsModel| && rest == valuesObsModel[GroupStart(i, m)..]
        invariant |observationOutput| == i
        invariant GroupStart(i, m) <= |observations| && (i > 0 ==> m <= |normalizationValue| && m <= |weights|)
        invariant observationOutput == Likelihoods(observations, normalizationValue, weights, m, exp, i)
      {
        var pairedValues := rest[..if m <= |rest| then m else |rest|];
        var product := ExponentiateGroup(pairedValues);
        if product.Err? {
          if |pairedValues| < m {
            ShortGroupMeansShortBatch(valuesObsModel, observations, normalizationValue, m, groups, i, hiddenVariables);
          }
          return Err(IndexOutOfRange);
        }
        MultiplyGroupsStep(valuesObsModel, observations, normalizationValue, weights, m, exp,
          groups, i, rest, pairedValues, product.value);
        LikelihoodsExtend(observations, normalizationValue, weights, m, exp, i);
        observationOutput := observationOutput + [product.value];
        rest := rest[m..];
        i := i + 1;
      }
      r := Ok(observationOutput);
    }

    /**
     The inner loop of the second pass: exp(-value / weight) for each of the m
     sources, then their product. Reading past the end of the group or of the
     weights is an IndexError.
     */
    method ExponentiateGroup(pairedValues: seq<real>) returns (r: Result<real, Error>)
      requires totalObservations >= 1 && NonZero(weights, totalObservations)
      ensures r.Err? <==> |pairedValues| < totalObservations || |weights| < totalObservations
      ensures r.Err? ==> r.error == IndexOutOfRange
      ensures r.Ok? ==> r.value == Prod(Exponentials(pairedValues[..totalObservations], weights, exp))
    {
      var m := totalObservations;
      var store: seq<real> := [];
      var index := 0;
      while index < m
        invariant 0 <= index <= m
        invariant index <= |pairedValues| && index <= |weights|
        invariant store == Exponentials(pairedValues[..index], weights, exp)
      {
        if index >= |pairedValues| || index >= |weights| {
          return Err(IndexOutOfRange);
        }
        ExponentialsExtend(pairedValues, weights, exp, index);
        store := store + [exp(-pairedValues[index] / weights[index])];
        index := index + 1;
      }
      r := Ok(Prod(store));
    }

    /**
     get_maximum_and_recursion: the posterior is stored as the new prior
     first, then checked; on success the first most probable state is returned.
     */
    method GetMaximumAndRecursion(normalizedPosteriorBelief: Vec) returns (r: Result<nat, Error>)
      requires Valid() && WellSized(Configuration(), normalizedPosteriorBelief)
      modifies this
      ensures Valid()
      ensures prior == normalizedPosteriorBelief
      ensures r == MaximumAndRecursion(normalizedPosteriorBelief).result
    {
      prior := normalizedPosteriorBelief;
      if !(normalizedPosteriorBelief.Finite? && Sum(normalizedPosteriorBelief.entries) == 1.0) {
        return Err(NormalizationViolation);
      }
      return Ok(ArgMax(normalizedPosteriorBelief.entries));
    }

    /**
     get_bayesian_update: the dimension guard, then rounded likelihood,
     rounded transition term from the current prior, rounded posterior, and the
     decision, which also replaces the prior.
     */
    method GetBayesianUpdate(observations: seq<real>) returns (r: Result<nat, Error>)
      requires Valid()
      modifies this
      ensures Valid()
      ensures r == Update(Configuration(), old(prior), observations).result
      ensures prior == Update(Configuration(), old(prior), observations).prior
    {
      if !(totalObservations == |weights| && |weights| == |normalizationValue|) &&
         !(hiddenVariables * totalObservations == |observations|) {
        return Err(DimensionMismatch);
      }
      var observationOutput := GetObservationModel(observations);
      if observationOutput.Err? {
        return Err(observationOutput.error);
      }
      var likelihood := RoundAll(round, decimalPlaces, observationOutput.value);
      var transition := RoundVec(round, decimalPlaces,
        TransitionModel(conditionalProbability, round, decimalPlaces, prior));
      var posterior := RoundVec(round, decimalPlaces, PosteriorBelief(likelihood, transition));
      r := GetMaximumAndRecursion(posterior);
    }
  }
}
