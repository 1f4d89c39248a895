/** One row of attention: its entropy from the log-sum-exp and the attention over the keys
    equals the naive sum over the probabilities. */
module Entropy {

  /** What is used of the exponential and the logarithm. */
  ghost predicate Laws(exp: real -> real, log: real -> real) {
    && (forall x :: exp(x) > 0.0)
    && (forall x :: log(exp(x)) == x)
    && (forall x, y :: LogOfQuotient(log, x, y))
    && (forall x, y :: 0.0 < x < y ==> log(x) < log(y))
  }

  ghost predicate LogOfQuotient(log: real -> real, x: real, y: real) {
    x > 0.0 && y > 0.0 ==> log(x / y) == log(x) - log(y)
  }

  // ----- sums and vectors -----

  function Sum(xs: seq<real>): real {
    if xs == [] then 0.0 else Sum(xs[..|xs| - 1]) + xs[|xs| - 1]
  }

  function Mul(a: real, b: real): real { a * b }

  predicate Combined(a: real, x: real, b: real, y: real, z: real) { z == a * x + b * y }

  lemma {:induction false} SumCombines(xs: seq<real>, a: real, ys: seq<real>, b: real, zs: seq<real>)
    requires |xs| == |ys| == |zs|
    requires forall j :: 0 <= j < |xs| ==> Combined(a, xs[j], b, ys[j], zs[j])
    ensures Combined(a, Sum(xs), b, Sum(ys), Sum(zs))
  {
    if xs != [] {
      var n := |xs| - 1;
      SumCombines(xs[..n], a, ys[..n], b, zs[..n]);
      Distribute(a, Sum(xs[..n]), xs[n]);
      Distribute(b, Sum(ys[..n]), ys[n]);
    }
  }

  lemma SumAppend(xs: seq<real>, x: real)
    ensures Sum(xs + [x]) == Sum(xs) + x
  {
    assert (xs + [x])[..|xs|] == xs;
  }

  lemma Distribute(a: real, x: real, y: real)
    ensures a * (x + y) == a * x + a * y
  {}

  /** Entry by entry at least as large, so the sum is; equal sums mean equal entries. */
  lemma {:induction false} SumDominates(xs: seq<real>, ys: seq<real>)
    requires |xs| == |ys| && forall j :: 0 <= j < |xs| ==> xs[j] <= ys[j]
    ensures Sum(xs) <= Sum(ys)
    ensures Sum(xs) == Sum(ys) <==> xs == ys
  {
    if xs != [] {
      var n := |xs| - 1;
      SumDominates(xs[..n], ys[..n]);
      assert xs == xs[..n] + [xs[n]] && ys == ys[..n] + [ys[n]];
    }
  }

  function Dot(a: seq<real>, b: seq<real>): real
    requires |a| == |b|
  {
    if a == [] then 0.0 else Dot(a[..|a| - 1], b[..|b| - 1]) + a[|a| - 1] * b[|b| - 1]
  }

  /** The product is the sum of the products of the coordinates. */
  lemma {:induction false} DotIsSum(a: seq<real>, b: seq<real>)
    requires |a| == |b|
    ensures Dot(a, b) == Sum(seq(|a|, d requires 0 <= d < |a| => a[d] * b[d]))
  {
    if a != [] {
      var n := |a| - 1;
      DotIsSum(a[..n], b[..n]);
      var terms := seq(|a|, d requires 0 <= d < |a| => a[d] * b[d]);
      var front := seq(|a[..n]|, d requires 0 <= d < |a[..n]| => a[..n][d] * b[..n][d]);
      assert forall d :: 0 <= d < n ==> terms[d] == front[d];
      assert terms[..n] == front;
    }
  }

  function Zeros(n: nat): seq<real> { seq(n, i => 0.0) }

  function AddScaled(a: seq<real>, p: real, b: seq<real>): seq<real>
    requires |a| == |b|
  {
    seq(|a|, d requires 0 <= d < |a| => a[d] + p * b[d])
  }

  predicate Vectors(vs: seq<seq<real>>, dim: nat) { forall j :: 0 <= j < |vs| ==> |vs[j]| == dim }

  /** The attention output: the values weighted by the probabilities. */
  function Weighted(p: seq<real>, vs: seq<seq<real>>, dim: nat): (o: seq<real>)
    requires |p| == |vs| && Vectors(vs, dim)
    ensures |o| == dim
  {
    if p == [] then Zeros(dim)
    else
      var n := |p| - 1;
      AddScaled(Weighted(p[..n], vs[..n], dim), p[n], vs[n])
  }

  lemma {:induction false} DotZeros(q: seq<real>)
    ensures Dot(q, Zeros(|q|)) == 0.0
  {
    if q != [] {
      DotZeros(q[..|q| - 1]);
      assert Zeros(|q|)[..|q| - 1] == Zeros(|q| - 1);
    }
  }

  lemma {:induction false} DotAddScaled(q: seq<real>, a: seq<real>, p: real, b: seq<real>)
    requires |q| == |a| == |b|
    ensures Dot(q, AddScaled(a, p, b)) == Dot(q, a) + p * Dot(q, b)
  {
    if q != [] {
      var n := |q| - 1;
      DotAddScaled(q[..n], a[..n], p, b[..n]);
      var sum, front := AddScaled(a, p, b), AddScaled(a[..n], p, b[..n]);
      assert forall d :: 0 <= d < n ==> sum[d] == front[d];
      assert sum[..n] == front;
      OneCoordinate(q[n], a[n], p, b[n]);
      Distribute(p, Dot(q[..n], b[..n]), q[n] * b[n]);
    }
  }

  lemma OneCoordinate(q: real, a: real, p: real, b: real)
    ensures q * (a + p * b) == q * a + p * (q * b)
  {}

  function Dots(q: seq<real>, vs: seq<seq<real>>): seq<real>
    requires Vectors(vs, |q|)
  {
    seq(|vs|, j requires 0 <= j < |vs| => Dot(q, vs[j]))
  }

  function Times(p: seq<real>, xs: seq<real>): seq<real>
    requires |p| == |xs|
  {
    seq(|p|, j requires 0 <= j < |p| => Mul(p[j], xs[j]))
  }

  lemma TimesAppend(p: seq<real>, xs: seq<real>, a: real, x: real)
    requires |p| == |xs|
    ensures Times(p + [a], xs + [x]) == Times(p, xs) + [Mul(a, x)]
    ensures Sum(Times(p + [a], xs + [x])) == Sum(Times(p, xs)) + Mul(a, x)
  {
    assert Times(p + [a], xs + [x]) == Times(p, xs) + [Mul(a, x)];
    SumAppend(Times(p, xs), Mul(a, x));
  }

  lemma WeightedAppend(p: seq<real>, vs: seq<seq<real>>, a: real, v: seq<real>, q: seq<real>)
    requires |p| == |vs| && Vectors(vs, |q|) && |v| == |q|
    ensures Vectors(vs + [v], |q|)
    ensures Dot(q, Weighted(p + [a], vs + [v], |q|)) == Dot(q, Weighted(p, vs, |q|)) + Mul(a, Dot(q, v))
  {
    var before := Weighted(p, vs, |q|);
    assert (p + [a])[..|p|] == p && (vs + [v])[..|p|] == vs;
    assert Weighted(p + [a], vs + [v], |q|) == AddScaled(before, a, v);
    DotAddScaled(q, before, a, v);
    hide Dot, AddScaled, Weighted;
  }

  /** The product with the output needs no score matrix. */
  lemma {:induction false} DotWeighted(p: seq<real>, q: seq<real>, vs: seq<seq<real>>)
    requires |p| == |vs| && Vectors(vs, |q|)
    ensures Dot(q, Weighted(p, vs, |q|)) == Sum(Times(p, Dots(q, vs)))
  {
    if p == [] {
      DotZeros(q);
    } else {
      var n := |p| - 1;
      var front, back := p[..n], vs[..n];
      assert p == front + [p[n]] && vs == back + [vs[n]];
      DotWeighted(front, q, back);
      WeightedAppend(front, back, p[n], vs[n], q);
      assert Dots(q, vs) == Dots(q, back) + [Dot(q, vs[n])];
      TimesAppend(front, Dots(q, back), p[n], Dot(q, vs[n]));
    }
  }

  // ----- one row of scores -----

  /** A masked score is minus infinity. */
  datatype Score = NegInf | Finite(value: real)

  function Scores(q: seq<real>, ks: seq<seq<real>>, scale: real, keep: seq<bool>): seq<Score>
    requires Vectors(ks, |q|) && |keep| == |ks|
  {
    seq(|ks|, j requires 0 <= j < |ks| => if keep[j] then Finite(Mul(Dot(q, ks[j]), scale)) else NegInf)
  }

  function Weight(exp: real -> real, s: Score): real {
    match s
    case NegInf => 0.0
    case Finite(x) => exp(x)
  }

  function Weights(exp: real -> real, scores: seq<Score>): seq<real> {
    seq(|scores|, j requires 0 <= j < |scores| => Weight(exp, scores[j]))
  }

  function Normal(exp: real -> real, scores: seq<Score>): real { Sum(Weights(exp, scores)) }

  predicate SomeKept(scores: seq<Score>) { exists j :: 0 <= j < |scores| && scores[j].Finite? }

  lemma {:induction false} NormalPositive(exp: real -> real, scores: seq<Score>)
    requires forall x :: exp(x) > 0.0
    ensures Normal(exp, scores) >= 0.0
    ensures SomeKept(scores) ==> Normal(exp, scores) > 0.0
  {
    if scores != [] {
      var n := |scores| - 1;
      NormalPositive(exp, scores[..n]);
      assert Weights(exp, scores)[..n] == Weights(exp, scores[..n]);
      if SomeKept(scores) && scores[n].NegInf? {
        var j :| 0 <= j < |scores| && scores[j].Finite?;
        assert scores[..n][j].Finite?;
      }
    }
  }

  /** softmax; without a kept score the program gets NaN. */
  function Softmax(exp: real -> real, scores: seq<Score>): seq<real>
    requires Normal(exp, scores) > 0.0
  {
    seq(|scores|, j requires 0 <= j < |scores| => Weight(exp, scores[j]) / Normal(exp, scores))
  }

  function LogSumExp(exp: real -> real, log: real -> real, scores: seq<Score>): real { log(Normal(exp, scores)) }

  const CLAMP: real := 1.0 / 1_000_000_000_000_000_000_000_000_000_000.0

  function ClampMin(p: real): real { if p < CLAMP then CLAMP else p }

  function ClampedTerm(log: real -> real, p: real): real { p * log(ClampMin(p)) }

  /** p * log(p.clamp_min(1e-30)) */
  function ClampedTerms(log: real -> real, p: seq<real>): seq<real> {
    seq(|p|, j requires 0 <= j < |p| => ClampedTerm(log, p[j]))
  }

  /** The reference entropy of a row. */
  function NaiveEntropy(exp: real -> real, log: real -> real, scores: seq<Score>): real
    requires Normal(exp, scores) > 0.0
  {
    -Sum(ClampedTerms(log, Softmax(exp, scores)))
  }

  /** The fast form. */
  function FastEntropy(lse: real, q: seq<real>, ok: seq<real>, scale: real): real
    requires |q| == |ok|
  {
    lse - Mul(Dot(q, ok), scale)
  }

  // ----- the row theorem -----

  function PureTerm(log: real -> real, p: real): real { if p == 0.0 then 0.0 else p * log(p) }

  /** The mathematical terms: masked entries contribute nothing. */
  function PureTerms(log: real -> real, p: seq<real>): seq<real> {
    seq(|p|, j requires 0 <= j < |p| => PureTerm(log, p[j]))
  }

  lemma {:induction false} SumOfQuotients(w: seq<real>, z: real, p: seq<real>)
    requires z > 0.0 && |p| == |w| && forall j :: 0 <= j < |w| ==> p[j] == w[j] / z
    ensures Sum(p) == Sum(w) / z
  {
    if w != [] {
      var n := |w| - 1;
      SumOfQuotients(w[..n], z, p[..n]);
      QuotientAdds(Sum(w[..n]), w[n], z);
    }
  }

  lemma QuotientAdds(x: real, y: real, z: real)
    requires z > 0.0
    ensures (x + y) / z == x / z + y / z
  {}

  lemma SelfQuotient(z: real)
    requires z > 0.0
    ensures z / z == 1.0
  {}

  lemma QuotientSign(x: real, z: real)
    requires z > 0.0
    ensures (x > 0.0 <==> x / z > 0.0) && (x == 0.0 <==> x / z == 0.0)
  {}

  /** The probabilities sum to one, and exactly the kept ones are positive. */
  lemma SoftmaxFacts(exp: real -> real, log: real -> real, scores: seq<Score>)
    requires Laws(exp, log) && SomeKept(scores)
    ensures Normal(exp, scores) > 0.0
    ensures Sum(Softmax(exp, scores)) == 1.0
    ensures forall j :: 0 <= j < |scores| ==> SignRight(scores[j], Softmax(exp, scores)[j])
  {
    NormalPositive(exp, scores);
    var z := Normal(exp, scores);
    SumOfQuotients(Weights(exp, scores), z, Softmax(exp, scores));
    SelfQuotient(z);
    forall j | 0 <= j < |scores| ensures SignRight(scores[j], Softmax(exp, scores)[j]) {
      QuotientSign(Weight(exp, scores[j]), z);
    }
  }

  predicate SignRight(s: Score, p: real) { if s.Finite? then p > 0.0 else p == 0.0 }

  /** The logarithm of a kept probability is its score minus the log-sum-exp. */
  lemma KeptTerm(exp: real -> real, log: real -> real, scores: seq<Score>, j: nat)
    requires Laws(exp, log) && Normal(exp, scores) > 0.0 && j < |scores| && scores[j].Finite?
    ensures log(Softmax(exp, scores)[j]) == scores[j].value - LogSumExp(exp, log, scores)
  {
    assert LogOfQuotient(log, exp(scores[j].value), Normal(exp, scores));
  }

  lemma PureTermCombines(exp: real -> real, log: real -> real, scores: seq<Score>, j: nat, dot: real, scale: real)
    requires Laws(exp, log) && Normal(exp, scores) > 0.0 && j < |scores|
    requires ScoreIs(scores[j], dot, scale)
    requires SignRight(scores[j], Softmax(exp, scores)[j])
    ensures var p := Softmax(exp, scores)[j];
      Combined(scale, Mul(p, dot), -LogSumExp(exp, log, scores), p, PureTerm(log, p))
  {
    if scores[j].Finite? {
      KeptTerm(exp, log, scores, j);
      OneTerm(Softmax(exp, scores)[j], dot, scale, LogSumExp(exp, log, scores));
    }
  }

  /** Scores are products with the keys, or masked. */
  predicate ScoresOf(scores: seq<Score>, dots: seq<real>, scale: real) {
    |scores| == |dots| && forall j :: 0 <= j < |scores| ==> ScoreIs(scores[j], dots[j], scale)
  }

  predicate ScoreIs(s: Score, dot: real, scale: real) { s.Finite? ==> s.value == Mul(dot, scale) }

  lemma PureTermsCombine(exp: real -> real, log: real -> real, scores: seq<Score>, dots: seq<real>, scale: real)
    requires Laws(exp, log) && SomeKept(scores) && ScoresOf(scores, dots, scale)
    ensures Normal(exp, scores) > 0.0
    ensures var p := Softmax(exp, scores);
      Combined(scale, Sum(Times(p, dots)), -LogSumExp(exp, log, scores), Sum(p), Sum(PureTerms(log, p)))
  {
    SoftmaxFacts(exp, log, scores);
    var p, lse := Softmax(exp, scores), LogSumExp(exp, log, scores);
    var times, terms := Times(p, dots), PureTerms(log, p);
    forall j: nat | j < |p| ensures Combined(scale, times[j], -lse, p[j], terms[j]) {
      PureTermCombines(exp, log, scores, j, dots[j], scale);
    }
    SumCombines(times, scale, p, -lse, terms);
  }

  /** The fast form of a row. */
  function FastRow(exp: real -> real, log: real -> real, q: seq<real>, ks: seq<seq<real>>, scale: real,
                   scores: seq<Score>): real
    requires Vectors(ks, |q|) && |scores| == |ks| && Normal(exp, scores) > 0.0
  {
    FastEntropy(LogSumExp(exp, log, scores), q, Weighted(Softmax(exp, scores), ks, |q|), scale)
  }

  /** Without the clamp the fast form is the entropy, whatever the mask. */
  lemma FastIsPure(exp: real -> real, log: real -> real, q: seq<real>, ks: seq<seq<real>>, scale: real,
                   scores: seq<Score>)
    requires Laws(exp, log) && Vectors(ks, |q|) && SomeKept(scores) && ScoresOf(scores, Dots(q, ks), scale)
    ensures Normal(exp, scores) > 0.0
    ensures -Sum(PureTerms(log, Softmax(exp, scores))) == FastRow(exp, log, q, ks, scale, scores)
  {
    PureTermsCombine(exp, log, scores, Dots(q, ks), scale);
    SoftmaxFacts(exp, log, scores);
    var p := Softmax(exp, scores);
    DotWeighted(p, q, ks);
    FastFromParts(LogSumExp(exp, log, scores), scale, Sum(Times(p, Dots(q, ks))), Sum(p), Sum(PureTerms(log, p)));
  }

  lemma FastFromParts(lse: real, scale: real, dot: real, one: real, sum: real)
    requires one == 1.0 && Combined(scale, dot, -lse, one, sum)
    ensures -sum == lse - Mul(dot, scale)
  {}

  lemma OneTerm(p: real, dot: real, scale: real, lse: real)
    ensures p * (dot * scale - lse) == scale * (p * dot) + (-lse) * p
  {}

  /** The clamp changes nothing when every kept probability reaches it. */
  predicate ClampInert(scores: seq<Score>, p: seq<real>)
    requires |scores| == |p|
  {
    forall j :: 0 <= j < |p| && scores[j].Finite? ==> Reaches(p[j])
  }

  /** The probability is at least 1e-30. */
  predicate Reaches(p: real) { p * 1_000_000_000_000_000_000_000_000_000_000.0 >= 1.0 }

  lemma ReachesClamp(p: real)
    ensures Reaches(p) <==> p >= CLAMP
  {
    var big := 1_000_000_000_000_000_000_000_000_000_000.0;
    assert CLAMP * big == 1.0;
    ScaleUp(p, CLAMP, big);
  }

  lemma ScaleUp(p: real, x: real, big: real)
    requires big > 0.0
    ensures p >= x <==> p * big >= x * big
  {
    if p < x { ScaleLess(big, p, x); }
    if p > x { ScaleLess(big, x, p); }
  }

  lemma ClampCosts(log: real -> real, s: Score, p: real)
    requires SignRight(s, p) && forall x, y :: 0.0 < x < y ==> log(x) < log(y)
    ensures PureTerm(log, p) <= ClampedTerm(log, p)
    ensures PureTerm(log, p) == ClampedTerm(log, p) <==> (s.Finite? ==> p >= CLAMP)
  {
    if 0.0 < p { ClampCostsAt(log, p, CLAMP); }
  }

  lemma ClampCostsUnlessReached(log: real -> real, s: Score, p: real)
    requires SignRight(s, p) && forall x, y :: 0.0 < x < y ==> log(x) < log(y)
    ensures PureTerm(log, p) <= ClampedTerm(log, p)
    ensures PureTerm(log, p) == ClampedTerm(log, p) <==> (s.Finite? ==> Reaches(p))
  {
    hide PureTerm, ClampedTerm, Reaches, SignRight;
    ClampCosts(log, s, p);
    ReachesClamp(p);
  }

  lemma ClampCostsAt(log: real -> real, p: real, clamp: real)
    requires 0.0 < p && 0.0 < clamp && forall x, y :: 0.0 < x < y ==> log(x) < log(y)
    ensures var clamped := if p < clamp then clamp else p;
      p * log(p) <= p * log(clamped) && (p * log(p) == p * log(clamped) <==> p >= clamp)
  {
    if p < clamp { ScaleLess(p, log(p), log(clamp)); }
  }

  lemma ScaleLess(p: real, x: real, y: real)
    requires p > 0.0 && x < y
    ensures p * x < p * y
  {}

  /** The fast form is the reference entropy exactly when the clamp is inert, and never
      below it otherwise. */
  lemma FastIsNaive(exp: real -> real, log: real -> real, q: seq<real>, ks: seq<seq<real>>, scale: real,
                    scores: seq<Score>)
    requires Laws(exp, log) && Vectors(ks, |q|) && SomeKept(scores) && ScoresOf(scores, Dots(q, ks), scale)
    ensures Normal(exp, scores) > 0.0
    ensures NaiveEntropy(exp, log, scores) <= FastRow(exp, log, q, ks, scale, scores)
    ensures NaiveEntropy(exp, log, scores) == FastRow(exp, log, q, ks, scale, scores)
       <==> ClampInert(scores, Softmax(exp, scores))
  {
    FastIsPure(exp, log, q, ks, scale, scores);
    ClampedSums(exp, log, scores);
  }

  lemma ClampedSums(exp: real -> real, log: real -> real, scores: seq<Score>)
    requires Laws(exp, log) && SomeKept(scores)
    ensures Normal(exp, scores) > 0.0
    ensures var p := Softmax(exp, scores);
      && Sum(PureTerms(log, p)) <= Sum(ClampedTerms(log, p))
      && (Sum(PureTerms(log, p)) == Sum(ClampedTerms(log, p)) <==> ClampInert(scores, p))
  {
    SoftmaxFacts(exp, log, scores);
    var p := Softmax(exp, scores);
    var pure, clamped := PureTerms(log, p), ClampedTerms(log, p);
    forall j | 0 <= j < |p|
      ensures pure[j] <= clamped[j] && (pure[j] == clamped[j] <==> (scores[j].Finite? ==> Reaches(p[j])))
    {
      ClampCostsUnlessReached(log, scores[j], p[j]);
    }
    SumDominates(pure, clamped);
    assert pure == clamped <==> ClampInert(scores, p);
  }
}
