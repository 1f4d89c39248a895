/** Choosing a layer by its attention entropy, once per sample or token by token. */
module Probe {
  import opened Common
  import opened Entropy

  function Abs(x: real): real { if x < 0.0 then -x else x }

  function Mean(xs: seq<real>): real
    requires xs != []
  {
    Sum(xs) / |xs| as real
  }

  /** One row per layer, one column per token. */
  ghost predicate Entropies(ce: seq<seq<real>>, tokens: nat) {
    tokens > 0 && forall l :: 0 <= l < |ce| ==> |ce[l]| == tokens
  }

  // ----- the candidate layers -----

  const SKIP_FIRST: nat := 2

  /** The first 40% of the layers without the first two. */
  function CandidateLayers(layers: nat): seq<nat> {
    var end := 2 * layers / 5;
    if end <= SKIP_FIRST then [] else seq(end - SKIP_FIRST, i requires i >= 0 => SKIP_FIRST + i)
  }

  /** The candidates are exactly the layers from 2 to below 40%, in order; each has a layer
      below it, so each has a score. */
  lemma CandidatesHaveScores(layers: nat)
    ensures forall l :: l in CandidateLayers(layers) <==> 2 <= l && 5 * (l + 1) <= 2 * layers
    ensures forall l :: l in CandidateLayers(layers) ==> 1 <= l < layers
    ensures forall i, j :: 0 <= i < j < |CandidateLayers(layers)| ==>
      CandidateLayers(layers)[i] < CandidateLayers(layers)[j]
  {
    var cand := CandidateLayers(layers);
    forall l: nat | 2 <= l && 5 * (l + 1) <= 2 * layers ensures l in cand {
      assert cand[l - SKIP_FIRST] == l;
    }
  }

  // ----- scores -----

  function Score(own: real, below: real): real { own + Abs(own - below) }

  /** Per sample; layer 0 has no score. */
  function ScoreLayers(means: seq<real>): (scores: seq<Option<real>>)
    requires means != []
    ensures |scores| == |means|
  {
    seq(|means|, l requires 0 <= l < |means| => if l == 0 then None else Some(Score(means[l], means[l - 1])))
  }

  function Means(ce: seq<seq<real>>): (means: seq<real>)
    requires forall l :: 0 <= l < |ce| ==> ce[l] != []
    ensures |means| == |ce|
  {
    seq(|ce|, l requires 0 <= l < |ce| => Mean(ce[l]))
  }

  /** Per token; infinity excludes layer 0. */
  datatype Ext = Infinity | Finite(value: real)

  predicate Less(x: Ext, y: Ext) { x.Finite? && (y.Infinity? || x.value < y.value) }

  function TokenScore(ce: seq<seq<real>>, l: nat, t: nat): Ext
    requires l < |ce| && t < |ce[l]| && (l > 0 ==> t < |ce[l - 1]|)
  {
    if l == 0 then Infinity else Ext.Finite(Score(ce[l][t], ce[l - 1][t]))
  }

  /** The token scores of a layer above the first. */
  function TokenScores(ce: seq<seq<real>>, l: nat): (scores: seq<real>)
    requires 0 < l < |ce| && |ce[l - 1]| == |ce[l]|
    ensures |scores| == |ce[l]|
  {
    seq(|ce[l]|, t requires 0 <= t < |ce[l]| => Score(ce[l][t], ce[l - 1][t]))
  }

  method ScoreMatrix(ce: seq<seq<real>>, tokens: nat) returns (out: array2<Ext>)
    requires Entropies(ce, tokens)
    ensures out.Length0 == |ce| && out.Length1 == tokens
    ensures forall l, t :: 0 <= l < |ce| && 0 <= t < tokens ==> out[l, t] == TokenScore(ce, l, t)
  {
    out := new Ext[|ce|, tokens]((l, t) => Infinity);
    forall l, t | 1 <= l < |ce| && 0 <= t < tokens {
      out[l, t] := Ext.Finite(ce[l][t] + Abs(ce[l][t] - ce[l - 1][t]));
    }
  }

  // ----- per sample against per token -----

  lemma {:induction false} SumTriangle(own: seq<real>, below: seq<real>, scores: seq<real>)
    requires |own| == |below| == |scores|
    requires forall t :: 0 <= t < |own| ==> scores[t] == Score(own[t], below[t])
    ensures Score(Sum(own), Sum(below)) <= Sum(scores)
  {
    if own != [] {
      var n := |own| - 1;
      SumTriangle(own[..n], below[..n], scores[..n]);
    }
  }

  lemma ScoreOfQuotients(own: real, below: real, bound: real, n: real)
    requires n > 0.0 && Score(own, below) <= bound
    ensures Score(own / n, below / n) <= bound / n
  {}

  lemma ScoreOfMeans(own: seq<real>, below: seq<real>, scores: seq<real>)
    requires own != [] && |own| == |below| == |scores|
    requires forall t :: 0 <= t < |own| ==> scores[t] == Score(own[t], below[t])
    ensures Score(Mean(own), Mean(below)) <= Mean(scores)
  {
    SumTriangle(own, below, scores);
    ScoreOfQuotients(Sum(own), Sum(below), Sum(scores), |own| as real);
  }

  lemma SmallerQuotient(x: real, y: real, n: real)
    requires n > 0.0 && x <= y
    ensures x / n <= y / n
  {}

  /** The score of a layer for the sample is at most the mean of its token scores. */
  lemma SampleScoreBelowTokenMean(ce: seq<seq<real>>, tokens: nat, l: nat)
    requires Entropies(ce, tokens) && 0 < l < |ce|
    ensures ScoreLayers(Means(ce))[l].Some?
    ensures ScoreLayers(Means(ce))[l].value <= Mean(TokenScores(ce, l))
  {
    ScoreOfMeans(ce[l], ce[l - 1], TokenScores(ce, l));
    MeansAt(ce, l);
    MeansAt(ce, l - 1);
    ScoreLayersAt(Means(ce), l);
    hide Mean, Means, Score, ScoreLayers;
  }

  lemma MeansAt(ce: seq<seq<real>>, l: nat)
    requires l < |ce| && forall i :: 0 <= i < |ce| ==> ce[i] != []
    ensures Means(ce)[l] == Mean(ce[l])
  {
    hide Mean;
  }

  lemma ScoreLayersAt(means: seq<real>, l: nat)
    requires 0 < l < |means|
    ensures ScoreLayers(means)[l] == Some(Score(means[l], means[l - 1]))
  {
    hide Score;
  }

  // ----- per-token choice -----

  /** The first index of a least entry. */
  function ArgMin(xs: seq<Ext>): (k: nat)
    requires xs != []
    ensures k < |xs|
    ensures forall j :: 0 <= j < |xs| ==> !Less(xs[j], xs[k])
    ensures forall j :: 0 <= j < k ==> Less(xs[k], xs[j])
  {
    if |xs| == 1 then 0
    else
      var n := |xs| - 1;
      var k := ArgMin(xs[..n]);
      if Less(xs[n], xs[k]) then n else k
  }

  function CandidateColumn(ce: seq<seq<real>>, cand: seq<nat>, t: nat): (column: seq<Ext>)
    requires forall l :: 0 <= l < |ce| ==> t < |ce[l]|
    requires forall i :: 0 <= i < |cand| ==> cand[i] < |ce|
    ensures |column| == |cand|
  {
    seq(|cand|, i requires 0 <= i < |cand| => TokenScore(ce, cand[i], t))
  }

  function PickPerToken(ce: seq<seq<real>>, tokens: nat, cand: seq<nat>): (picks: seq<nat>)
    requires Entropies(ce, tokens) && cand != [] && forall i :: 0 <= i < |cand| ==> cand[i] < |ce|
    ensures |picks| == tokens
  {
    seq(tokens, t requires 0 <= t < tokens => cand[ArgMin(CandidateColumn(ce, cand, t))])
  }

  /** The pick of a token is a candidate, the first of those with the least score, and
      never layer 0 when there is another. */
  lemma PickIsFirstLeast(ce: seq<seq<real>>, tokens: nat, cand: seq<nat>, t: nat)
    requires Entropies(ce, tokens) && cand != [] && t < tokens && forall i :: 0 <= i < |cand| ==> cand[i] < |ce|
    ensures var pick := PickPerToken(ce, tokens, cand)[t];
      exists k :: 0 <= k < |cand| && cand[k] == pick
        && (forall i :: 0 <= i < |cand| ==> !Less(TokenScore(ce, cand[i], t), TokenScore(ce, pick, t)))
        && (forall i :: 0 <= i < k ==> Less(TokenScore(ce, pick, t), TokenScore(ce, cand[i], t)))
    ensures (exists i :: 0 <= i < |cand| && cand[i] > 0) ==> PickPerToken(ce, tokens, cand)[t] > 0
  {
    var column := CandidateColumn(ce, cand, t);
    var k := ArgMin(column);
    assert forall i :: 0 <= i < |cand| ==> column[i] == TokenScore(ce, cand[i], t);
    assert cand[k] == PickPerToken(ce, tokens, cand)[t];
  }

  /** The scores of the picked layers. */
  function PickedScores(ce: seq<seq<real>>, picks: seq<nat>): (scores: seq<real>)
    requires Entropies(ce, |picks|) && forall t :: 0 <= t < |picks| ==> 0 < picks[t] < |ce|
    ensures |scores| == |picks|
  {
    seq(|picks|, t requires 0 <= t < |picks| => Score(ce[picks[t]][t], ce[picks[t] - 1][t]))
  }

  /** Choosing token by token is never worse on average than any one candidate layer. */
  lemma PicksBeatFixedLayer(ce: seq<seq<real>>, tokens: nat, cand: seq<nat>, c: nat)
    requires Entropies(ce, tokens) && forall i :: 0 <= i < |cand| ==> cand[i] < |ce|
    requires c < |cand| && cand[c] > 0
    ensures var picks := PickPerToken(ce, tokens, cand);
      && (forall t :: 0 <= t < tokens ==> 0 < picks[t] < |ce|)
      && Mean(PickedScores(ce, picks)) <= Mean(TokenScores(ce, cand[c]))
  {
    var picks := PickPerToken(ce, tokens, cand);
    forall t: nat | t < tokens
      ensures 0 < picks[t] < |ce| && !Less(TokenScore(ce, cand[c], t), TokenScore(ce, picks[t], t))
    {
      PickIsFirstLeast(ce, tokens, cand, t);
    }
    var picked, fixed := PickedScores(ce, picks), TokenScores(ce, cand[c]);
    forall t: nat | t < tokens ensures picked[t] <= fixed[t] {
      assert !Less(TokenScore(ce, cand[c], t), TokenScore(ce, picks[t], t));
    }
    SumDominates(picked, fixed);
    SmallerQuotient(Sum(picked), Sum(fixed), tokens as real);
  }

  // ----- per-sample choice -----

  /** min(cand, key=...): None stands for the ValueError without candidates, and for the
      TypeError of comparing layer 0. */
  function PickSample(scores: seq<Option<real>>, cand: seq<nat>): Option<nat>
    requires forall i :: 0 <= i < |cand| ==> cand[i] < |scores|
  {
    if cand == [] then None
    else if |cand| == 1 then Some(cand[0])
    else
      var n := |cand| - 1;
      var best := PickSample(scores, cand[..n]);
      if best.None? || best.value >= |scores| || scores[best.value].None? || scores[cand[n]].None? then None
      else if scores[cand[n]].value < scores[best.value].value then Some(cand[n]) else best
  }

  predicate Scored(scores: seq<Option<real>>, cand: seq<nat>) {
    forall i :: 0 <= i < |cand| ==> cand[i] < |scores| && scores[cand[i]].Some?
  }

  /** Candidate `k` has the least score, and is the first that has it. */
  ghost predicate FirstLeast(scores: seq<Option<real>>, cand: seq<nat>, k: nat)
    requires Scored(scores, cand)
  {
    && k < |cand|
    && (forall i :: 0 <= i < |cand| ==> scores[cand[k]].value <= scores[cand[i]].value)
    && (forall i :: 0 <= i < k ==> scores[cand[k]].value < scores[cand[i]].value)
  }

  /** With scored candidates the pick is the first one with the least score. */
  lemma {:induction false} PickSampleIsFirstLeast(scores: seq<Option<real>>, cand: seq<nat>) returns (k: nat)
    requires cand != [] && Scored(scores, cand)
    ensures FirstLeast(scores, cand, k) && PickSample(scores, cand) == Some(cand[k])
  {
    var n := |cand| - 1;
    k := 0;
    if n > 0 {
      var front := cand[..n];
      k := PickSampleIsFirstLeast(scores, front);
      assert forall i :: 0 <= i < n ==> front[i] == cand[i];
      if scores[cand[n]].value < scores[cand[k]].value { k := n; }
    }
  }

  lemma CandidatesScored(ce: seq<seq<real>>, tokens: nat)
    requires Entropies(ce, tokens) && ce != []
    ensures Scored(ScoreLayers(Means(ce)), CandidateLayers(|ce|))
    ensures forall i :: 0 <= i < |CandidateLayers(|ce|)| ==> 0 < CandidateLayers(|ce|)[i] < |ce|
  {}

  /** For the real candidates no missing score is ever compared; the score of the pick is
      at most the mean token score of any candidate. */
  lemma SamplePick(ce: seq<seq<real>>, tokens: nat, cand: seq<nat>, scores: seq<Option<real>>) returns (k: nat)
    requires Entropies(ce, tokens) && ce != [] && cand != []
    requires cand == CandidateLayers(|ce|) && scores == ScoreLayers(Means(ce))
    ensures Scored(scores, cand) && FirstLeast(scores, cand, k) && PickSample(scores, cand) == Some(cand[k])
    ensures forall i :: 0 <= i < |cand| ==> 0 < cand[i] < |ce|
    ensures forall i :: 0 <= i < |cand| ==> scores[cand[k]].value <= Mean(TokenScores(ce, cand[i]))
  {
    CandidatesScored(ce, tokens);
    k := PickSampleIsFirstLeast(scores, cand);
    forall i | 0 <= i < |cand| ensures scores[cand[k]].value <= Mean(TokenScores(ce, cand[i])) {
      SampleScoreBelowTokenMean(ce, tokens, cand[i]);
    }
  }

  // ----- what a pick costs -----

  /** The entropy of a layer and the size of the step from the layer below. */
  function Cost(own: real, below: real): real { if own >= below then own + (own - below) else own + (below - own) }

  lemma ScoreIsCost(own: real, below: real)
    ensures Score(own, below) == Cost(own, below)
  {}

  /** Token by token the pick is the first candidate whose entropy plus step is least. */
  lemma PickCostsLeast(ce: seq<seq<real>>, tokens: nat, cand: seq<nat>, t: nat) returns (k: nat)
    requires Entropies(ce, tokens) && cand != [] && t < tokens && forall i :: 0 <= i < |cand| ==> 0 < cand[i] < |ce|
    ensures k < |cand| && PickPerToken(ce, tokens, cand)[t] == cand[k]
    ensures forall i :: 0 <= i < |cand| ==>
      Cost(ce[cand[k]][t], ce[cand[k] - 1][t]) <= Cost(ce[cand[i]][t], ce[cand[i] - 1][t])
    ensures forall i :: 0 <= i < k ==>
      Cost(ce[cand[k]][t], ce[cand[k] - 1][t]) < Cost(ce[cand[i]][t], ce[cand[i] - 1][t])
  {
    var column := CandidateColumn(ce, cand, t);
    k := ArgMin(column);
    forall i | 0 <= i < |cand| ensures column[i] == Ext.Finite(Cost(ce[cand[i]][t], ce[cand[i] - 1][t])) {
      ScoreIsCost(ce[cand[i]][t], ce[cand[i] - 1][t]);
    }
    hide Score, Cost;
  }

  /** Candidate `k` is the first whose mean entropy plus step is least. */
  ghost predicate CostsLeast(means: seq<real>, cand: seq<nat>, k: nat)
    requires forall i :: 0 <= i < |cand| ==> 0 < cand[i] < |means|
  {
    && k < |cand|
    && (forall i :: 0 <= i < |cand| ==>
          Cost(means[cand[k]], means[cand[k] - 1]) <= Cost(means[cand[i]], means[cand[i] - 1]))
    && (forall i :: 0 <= i < k ==>
          Cost(means[cand[k]], means[cand[k] - 1]) < Cost(means[cand[i]], means[cand[i] - 1]))
  }

  lemma LeastScoreCostsLeast(means: seq<real>, cand: seq<nat>, k: nat)
    requires means != [] && forall i :: 0 <= i < |cand| ==> 0 < cand[i] < |means|
    requires Scored(ScoreLayers(means), cand) && FirstLeast(ScoreLayers(means), cand, k)
    ensures CostsLeast(means, cand, k)
  {
    var scores := ScoreLayers(means);
    forall i | 0 <= i < |cand| ensures scores[cand[i]] == Some(Cost(means[cand[i]], means[cand[i] - 1])) {
      LayerCost(means, cand[i]);
    }
    hide Cost, ScoreLayers;
  }

  /** For a sample the same holds of the mean entropies of the layers. */
  lemma SampleCostsLeast(ce: seq<seq<real>>, tokens: nat, cand: seq<nat>) returns (k: nat, means: seq<real>)
    requires Entropies(ce, tokens) && ce != [] && cand != [] && cand == CandidateLayers(|ce|)
    ensures |means| == |ce| && forall l :: 0 <= l < |ce| ==> IsMean(means[l], ce[l])
    ensures k < |cand| && PickSample(ScoreLayers(Means(ce)), cand) == Some(cand[k])
    ensures (forall i :: 0 <= i < |cand| ==> 0 < cand[i] < |means|) && CostsLeast(means, cand, k)
  {
    means := Means(ce);
    hide ScoreLayers, Means, PickSample, CandidateLayers, CostsLeast, IsMean, FirstLeast, Mean, TokenScores;
    k := SamplePick(ce, tokens, cand, ScoreLayers(means));
    forall l | 0 <= l < |ce| ensures IsMean(means[l], ce[l]) { MeanTimesSize(ce, l); }
    LeastScoreCostsLeast(means, cand, k);
  }

  lemma LayerCost(means: seq<real>, l: nat)
    requires 0 < l < |means|
    ensures ScoreLayers(means)[l] == Some(Cost(means[l], means[l - 1]))
  {
    ScoreLayersAt(means, l);
    ScoreIsCost(means[l], means[l - 1]);
  }

  lemma MeanTimesSize(ce: seq<seq<real>>, l: nat)
    requires l < |ce| && forall i :: 0 <= i < |ce| ==> ce[i] != []
    ensures IsMean(Means(ce)[l], ce[l])
  {
    MeansAt(ce, l);
  }

  predicate IsMean(mean: real, xs: seq<real>) { mean * |xs| as real == Sum(xs) }
}
