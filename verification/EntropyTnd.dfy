/** Sequences of different lengths stored one after another: computing them one by one
    equals one pass over all rows with a block-diagonal mask. */
module EntropyTnd {
  import opened Entropy
  import opened EntropyHeads

  // ----- rows whose other keys are all masked -----

  lemma {:induction false} SumWindow(xs: seq<real>, lo: nat, hi: nat)
    requires lo <= hi <= |xs| && forall j :: 0 <= j < |xs| && !(lo <= j < hi) ==> xs[j] == 0.0
    ensures Sum(xs) == Sum(xs[lo..hi])
    decreases |xs|
  {
    if |xs| > hi {
      var n := |xs| - 1;
      SumWindow(xs[..n], lo, hi);
      assert xs[..n][lo..hi] == xs[lo..hi];
    } else if hi > lo {
      var n := |xs| - 1;
      SumWindow(xs[..n], lo, n);
      SumAppend(xs[..n][lo..n], xs[n]);
      assert xs[lo..hi] == xs[..n][lo..n] + [xs[n]];
    } else if |xs| > 0 {
      var n := |xs| - 1;
      SumWindow(xs[..n], n, n);
      assert xs[lo..hi] == [] && xs[..n][n..n] == [];
    }
  }

  lemma MaskedTermsVanish(exp: real -> real, log: real -> real, scores: seq<Score>, j: nat)
    requires Laws(exp, log) && SomeKept(scores) && j < |scores| && scores[j].NegInf?
    ensures Normal(exp, scores) > 0.0
    ensures Weights(exp, scores)[j] == 0.0 && ClampedTerms(log, Softmax(exp, scores))[j] == 0.0
  {
    SoftmaxFacts(exp, log, scores);
    assert SignRight(scores[j], Softmax(exp, scores)[j]);
  }

  lemma WindowNormal(exp: real -> real, log: real -> real, scores: seq<Score>, lo: nat, hi: nat)
    requires Laws(exp, log) && lo <= hi <= |scores| && SomeKept(scores)
    requires forall j :: 0 <= j < |scores| && scores[j].Finite? ==> lo <= j < hi
    ensures Normal(exp, scores) == Normal(exp, scores[lo..hi]) > 0.0
  {
    NormalPositive(exp, scores);
    SumWindow(Weights(exp, scores), lo, hi);
    assert Weights(exp, scores)[lo..hi] == Weights(exp, scores[lo..hi]);
  }

  lemma WindowTerms(exp: real -> real, log: real -> real, scores: seq<Score>, lo: nat, hi: nat)
    requires Laws(exp, log) && lo <= hi <= |scores| && SomeKept(scores)
    requires forall j :: 0 <= j < |scores| && scores[j].Finite? ==> lo <= j < hi
    requires Normal(exp, scores) == Normal(exp, scores[lo..hi]) > 0.0
    ensures Sum(ClampedTerms(log, Softmax(exp, scores))) == Sum(ClampedTerms(log, Softmax(exp, scores[lo..hi])))
  {
    hide Sum;
    var p, inner := Softmax(exp, scores), Softmax(exp, scores[lo..hi]);
    var terms := ClampedTerms(log, p);
    forall j: nat | j < |scores| && !(lo <= j < hi) ensures terms[j] == 0.0 {
      MaskedTermsVanish(exp, log, scores, j);
    }
    SumWindow(terms, lo, hi);
    assert p[lo..hi] == inner;
    assert terms[lo..hi] == ClampedTerms(log, inner);
  }

  /** Keys outside a window that are all masked may be left out. */
  lemma WindowScores(exp: real -> real, log: real -> real, scores: seq<Score>, lo: nat, hi: nat)
    requires Laws(exp, log) && lo <= hi <= |scores| && SomeKept(scores)
    requires forall j :: 0 <= j < |scores| && scores[j].Finite? ==> lo <= j < hi
    ensures Normal(exp, scores) == Normal(exp, scores[lo..hi]) > 0.0
    ensures NaiveEntropy(exp, log, scores) == NaiveEntropy(exp, log, scores[lo..hi])
    ensures LogSumExp(exp, log, scores) == LogSumExp(exp, log, scores[lo..hi])
  {
    WindowNormal(exp, log, scores, lo, hi);
    WindowTerms(exp, log, scores, lo, hi);
  }

  lemma WindowRow(exp: real -> real, log: real -> real, q: seq<real>, ks: Head, scale: real, keep: seq<bool>,
                  lo: nat, hi: nat)
    requires Laws(exp, log) && RowOk(q, ks, keep) && lo <= hi <= |keep|
    requires forall j :: 0 <= j < |keep| && keep[j] ==> lo <= j < hi
    ensures RowOk(q, ks[lo..hi], keep[lo..hi])
    ensures RefRow(exp, log, q, ks, scale, keep) == RefRow(exp, log, q, ks[lo..hi], scale, keep[lo..hi])
  {
    WindowOk(q, ks, keep, lo, hi);
    RowHasWeight(exp, log, q, ks, scale, keep);
    ScoresSlice(q, ks, scale, keep, lo, hi);
    WindowScores(exp, log, Scores(q, ks, scale, keep), lo, hi);
  }

  /** What a row is computed from. */
  datatype RowArgs = RowArgs(q: seq<real>, ks: Head, keep: seq<bool>) {
    predicate Ok() { RowOk(q, ks, keep) }

    /** The keys outside the window left out. */
    function Window(lo: nat, hi: nat): RowArgs
      requires lo <= hi <= |ks| && hi <= |keep|
    {
      RowArgs(q, ks[lo..hi], keep[lo..hi])
    }
  }

  function RowFor(exp: real -> real, log: real -> real, a: RowArgs, scale: real): Row
    requires Laws(exp, log) && a.Ok()
  {
    RefRow(exp, log, a.q, a.ks, scale, a.keep)
  }

  lemma WindowFor(exp: real -> real, log: real -> real, a: RowArgs, scale: real, lo: nat, hi: nat)
    requires Laws(exp, log) && a.Ok() && lo <= hi <= |a.keep|
    requires forall j :: 0 <= j < |a.keep| && a.keep[j] ==> lo <= j < hi
    ensures a.Window(lo, hi).Ok() && RowFor(exp, log, a.Window(lo, hi), scale) == RowFor(exp, log, a, scale)
  {
    hide RefRow, Laws;
    WindowRow(exp, log, a.q, a.ks, scale, a.keep, lo, hi);
  }

  lemma WindowOk(q: seq<real>, ks: Head, keep: seq<bool>, lo: nat, hi: nat)
    requires RowOk(q, ks, keep) && lo <= hi <= |keep|
    requires forall j :: 0 <= j < |keep| && keep[j] ==> lo <= j < hi
    ensures RowOk(q, ks[lo..hi], keep[lo..hi])
  {
    var j :| 0 <= j < |keep| && keep[j];
    assert keep[lo..hi][j - lo];
  }

  lemma ScoresSlice(q: seq<real>, ks: Head, scale: real, keep: seq<bool>, lo: nat, hi: nat)
    requires Vectors(ks, |q|) && |keep| == |ks| && lo <= hi <= |ks|
    ensures Vectors(ks[lo..hi], |q|)
    ensures Scores(q, ks[lo..hi], scale, keep[lo..hi]) == Scores(q, ks, scale, keep)[lo..hi]
    ensures forall j :: 0 <= j < |ks| ==> (Scores(q, ks, scale, keep)[j].Finite? <==> keep[j])
  {}

  // ----- which sequence a row belongs to -----

  function Total(lengths: seq<nat>): nat {
    if lengths == [] then 0 else Total(lengths[..|lengths| - 1]) + lengths[|lengths| - 1]
  }

  function BlockOf(lengths: seq<nat>, t: nat): (b: nat)
    requires t < Total(lengths)
    ensures b < |lengths|
  {
    var n := |lengths| - 1;
    if t >= Total(lengths[..n]) then n else BlockOf(lengths[..n], t)
  }

  /** The sequences partition the rows in order. */
  lemma {:induction false} BlockOfWindow(lengths: seq<nat>, b: nat, t: nat)
    requires b < |lengths| && t < Total(lengths)
    ensures BlockOf(lengths, t) == b <==> Total(lengths[..b]) <= t < Total(lengths[..b]) + lengths[b]
  {
    var n := |lengths| - 1;
    if b < n {
      assert lengths[..n][..b] == lengths[..b];
      TotalMonotone(lengths, b + 1, n);
      assert lengths[..b + 1][..b] == lengths[..b];
      if t < Total(lengths[..n]) { BlockOfWindow(lengths[..n], b, t); }
    }
  }

  lemma {:induction false} TotalMonotone(lengths: seq<nat>, i: nat, j: nat)
    requires i <= j <= |lengths|
    ensures Total(lengths[..i]) <= Total(lengths[..j])
  {
    if i < j {
      TotalMonotone(lengths, i, j - 1);
      assert lengths[..j][..j - 1] == lengths[..j - 1];
    }
  }

  // ----- one pass over all rows -----

  /** Tokens, each a list of head vectors. */
  type Tokens = seq<seq<seq<real>>>

  predicate TokensOk(x: Tokens, heads: nat, dim: nat) {
    forall t :: 0 <= t < |x| ==> |x[t]| == heads && Vectors(x[t], dim)
  }

  /** The arguments: concatenated queries and keys, and the lengths of the sequences. */
  datatype Batch = Batch(q: Tokens, k: Tokens, lengths: seq<nat>, heads: nat, kvHeads: nat, dim: nat,
                         scale: real, causal: bool) {
    predicate Ok() {
      && |q| == |k| == Total(lengths)
      && kvHeads > 0 && heads % kvHeads == 0
      && TokensOk(q, heads, dim) && TokensOk(k, kvHeads, dim)
    }
  }

  /** One head of all tokens. */
  function HeadOf(x: Tokens, h: nat): Head
    requires forall t :: 0 <= t < |x| ==> h < |x[t]|
  {
    seq(|x|, t requires 0 <= t < |x| => x[t][h])
  }

  /** Row `t` of the block-diagonal mask. */
  function BlockMask(lengths: seq<nat>, causal: bool, t: nat): seq<bool>
    requires t < Total(lengths)
  {
    seq(Total(lengths), j requires 0 <= j < Total(lengths) => MaskBit(lengths, causal, t, j))
  }

  predicate MaskBit(lengths: seq<nat>, causal: bool, t: nat, j: nat)
    requires t < Total(lengths) && j < Total(lengths)
  {
    BlockOf(lengths, j) == BlockOf(lengths, t) && (causal ==> j <= t)
  }

  /** The keys query head `h` looks at. */
  function KeysOf(b: Batch, h: nat): Head
    requires b.Ok() && h < b.heads
  {
    HeadOf(b.k, GroupOf(b.heads, b.kvHeads, h))
  }

  /** Row t, head h sees every token through the mask. */
  function PassArgs(b: Batch, t: nat, h: nat): (a: RowArgs)
    requires b.Ok() && t < |b.q| && h < b.heads
    ensures a.Ok()
  {
    assert BlockMask(b.lengths, b.causal, t)[t];
    RowArgs(b.q[t][h], KeysOf(b, h), BlockMask(b.lengths, b.causal, t))
  }

  function PassRow(exp: real -> real, log: real -> real, b: Batch, t: nat, h: nat): Row
    requires Laws(exp, log) && b.Ok() && t < |b.q| && h < b.heads
  {
    RowFor(exp, log, PassArgs(b, t, h), b.scale)
  }

  /** Tokens `t` and `j` are of one sequence. */
  ghost predicate SameSequence(lengths: seq<nat>, t: nat, j: nat) {
    exists s :: 0 <= s < |lengths|
      && Total(lengths[..s]) <= t < Total(lengths[..s]) + lengths[s]
      && Total(lengths[..s]) <= j < Total(lengths[..s]) + lengths[s]
  }

  /** What row t of head h is computed from: its own query, the keys of the head's group, and of
      those the tokens of the same sequence, not later than t if the mask is causal. */
  lemma PassReads(b: Batch, t: nat, h: nat, j: nat)
    requires b.Ok() && t < |b.q| && h < b.heads && j < |b.q|
    ensures b.heads / b.kvHeads > 0 && h / (b.heads / b.kvHeads) < b.kvHeads
    ensures var a := PassArgs(b, t, h);
      && a.q == b.q[t][h] && |a.ks| == |a.keep| == |b.q|
      && a.ks[j] == b.k[j][h / (b.heads / b.kvHeads)]
      && (a.keep[j] <==> SameSequence(b.lengths, t, j) && (b.causal ==> j <= t))
  {
    GroupFits(b.heads, b.kvHeads, h);
    SameBlock(b.lengths, t, j);
    hide SameSequence, Total;
  }

  lemma SameBlock(lengths: seq<nat>, t: nat, j: nat)
    requires t < Total(lengths) && j < Total(lengths)
    ensures BlockOf(lengths, j) == BlockOf(lengths, t) <==> SameSequence(lengths, t, j)
  {
    var s := BlockOf(lengths, t);
    BlockOfWindow(lengths, s, t);
    BlockOfWindow(lengths, s, j);
    if SameSequence(lengths, t, j) {
      var u :| 0 <= u < |lengths|
        && Total(lengths[..u]) <= t < Total(lengths[..u]) + lengths[u]
        && Total(lengths[..u]) <= j < Total(lengths[..u]) + lengths[u];
      BlockOfWindow(lengths, u, t);
    }
  }

  /** The entropies of the single pass, token by token. */
  ghost function PassEntropies(exp: real -> real, log: real -> real, b: Batch): (r: seq<seq<real>>)
    requires Laws(exp, log) && b.Ok()
    ensures |r| == |b.q|
  {
    seq(|b.q|, t requires 0 <= t < |b.q| =>
      seq(b.heads, h requires 0 <= h < b.heads => PassRow(exp, log, b, t, h).entropy))
  }

  ghost function PassLses(exp: real -> real, log: real -> real, b: Batch): (r: seq<seq<real>>)
    requires Laws(exp, log) && b.Ok()
    ensures |r| == |b.q|
  {
    seq(|b.q|, t requires 0 <= t < |b.q| =>
      seq(b.heads, h requires 0 <= h < b.heads => PassRow(exp, log, b, t, h).lse))
  }

  // ----- sequence by sequence -----

  /** Tokens turned into heads: transpose(0, 1). */
  function HeadMajor(x: Tokens, heads: nat): seq<Head>
    requires forall t :: 0 <= t < |x| ==> |x[t]| == heads
  {
    seq(heads, h requires 0 <= h < heads => HeadOf(x, h))
  }

  /** Row `i` of torch.tril, or no mask. */
  function Allow(n: nat, causal: bool, i: nat): seq<bool> { seq(n, j => !causal || j <= i) }

  /** Sequence `s` cut out of the batch. */
  function SliceOf(b: Batch, s: nat): (c: Batch)
    requires b.Ok() && s < |b.lengths|
    ensures c.Ok() && |c.q| == b.lengths[s]
  {
    SliceInside(b.lengths, s);
    var off, n := Total(b.lengths[..s]), b.lengths[s];
    b.(q := b.q[off..off + n], k := b.k[off..off + n], lengths := [n])
  }

  lemma SliceInside(lengths: seq<nat>, s: nat)
    requires s < |lengths|
    ensures Total(lengths[..s]) + lengths[s] == Total(lengths[..s + 1]) <= Total(lengths)
    ensures Total([lengths[s]]) == lengths[s]
  {
    assert lengths[..s + 1][..s] == lengths[..s];
    TotalMonotone(lengths, s + 1, |lengths|);
    assert lengths[..|lengths|] == lengths;
    assert [lengths[s]][..0] == [];
  }

  /** Row i, head h of one sequence on its own, with the expanded keys and the triangle. */
  function SliceArgs(c: Batch, i: nat, h: nat): (a: RowArgs)
    requires c.Ok() && i < |c.q| && h < c.heads
    ensures a == RowArgs(c.q[i][h], KeysOf(c, h), Allow(|c.q|, c.causal, i)) && a.Ok()
  {
    ExpandHeadsAt(HeadMajor(c.k, c.kvHeads), c.heads, h);
    assert Allow(|c.q|, c.causal, i)[i];
    RowArgs(c.q[i][h], ExpandHeads(HeadMajor(c.k, c.kvHeads), c.heads)[h], Allow(|c.q|, c.causal, i))
  }

  function SliceRow(exp: real -> real, log: real -> real, c: Batch, i: nat, h: nat): Row
    requires Laws(exp, log) && c.Ok() && i < |c.q| && h < c.heads
  {
    RowFor(exp, log, SliceArgs(c, i, h), c.scale)
  }

  /** What row `i` of a sequence at `off` with `n` tokens may see. */
  predicate Sees(off: nat, n: nat, causal: bool, i: nat, j: nat) { off <= j < off + n && (causal ==> j <= off + i) }

  /** A token is in the same sequence exactly when it is in its window. */
  lemma MaskEntry(lengths: seq<nat>, causal: bool, s: nat, i: nat, off: nat, j: nat)
    requires s < |lengths| && i < lengths[s] && off == Total(lengths[..s]) && off + lengths[s] <= Total(lengths)
    requires j < Total(lengths)
    ensures MaskBit(lengths, causal, off + i, j) == Sees(off, lengths[s], causal, i, j)
  {
    BlockOfWindow(lengths, s, off + i);
    BlockOfWindow(lengths, s, j);
  }

  lemma SeesIsTriangle(mask: seq<bool>, off: nat, n: nat, causal: bool, i: nat)
    requires off + n <= |mask| && forall j: nat :: j < |mask| ==> mask[j] == Sees(off, n, causal, i, j)
    ensures mask[off..off + n] == Allow(n, causal, i)
    ensures forall j :: 0 <= j < |mask| && mask[j] ==> off <= j < off + n
  {}

  /** The mask of a row, cut to its own sequence, is the triangle. */
  lemma MaskIsTriangle(lengths: seq<nat>, causal: bool, s: nat, i: nat, off: nat, mask: seq<bool>)
    requires s < |lengths| && i < lengths[s] && off == Total(lengths[..s]) && off + lengths[s] <= Total(lengths)
    requires mask == BlockMask(lengths, causal, off + i)
    ensures mask[off..off + lengths[s]] == Allow(lengths[s], causal, i)
    ensures forall j :: 0 <= j < |mask| && mask[j] ==> off <= j < off + lengths[s]
  {
    var n := lengths[s];
    forall j: nat | j < |mask| ensures mask[j] == Sees(off, n, causal, i, j) { MaskEntry(lengths, causal, s, i, off, j); }
    SeesIsTriangle(mask, off, n, causal, i);
  }

  lemma KeysSlice(b: Batch, s: nat, h: nat)
    requires b.Ok() && s < |b.lengths| && h < b.heads
    ensures Total(b.lengths[..s]) + b.lengths[s] <= |b.q|
    ensures var off := Total(b.lengths[..s]);
      KeysOf(SliceOf(b, s), h) == KeysOf(b, h)[off..off + b.lengths[s]]
  {
    SliceInside(b.lengths, s);
  }

  /** What a sequence on its own computes a row from is the window of what the single pass
      computes it from, and nothing outside the window is kept. */
  lemma SliceArgsAreWindow(b: Batch, s: nat, i: nat, h: nat)
    requires b.Ok() && s < |b.lengths| && i < b.lengths[s] && h < b.heads
    ensures Total(b.lengths[..s]) + b.lengths[s] <= |b.q|
    ensures var off := Total(b.lengths[..s]);
      var a := PassArgs(b, off + i, h);
      && SliceArgs(SliceOf(b, s), i, h) == a.Window(off, off + b.lengths[s])
      && forall j :: 0 <= j < |a.keep| && a.keep[j] ==> off <= j < off + b.lengths[s]
  {
    hide Total, MaskBit;
    SliceInside(b.lengths, s);
    var off := Total(b.lengths[..s]);
    MaskIsTriangle(b.lengths, b.causal, s, i, off, BlockMask(b.lengths, b.causal, off + i));
    KeysSlice(b, s, h);
  }

  /** A sequence on its own gives the rows of the single pass. */
  lemma SliceRowIsPassRow(exp: real -> real, log: real -> real, b: Batch, s: nat, i: nat, h: nat)
    requires Laws(exp, log) && b.Ok() && s < |b.lengths| && i < b.lengths[s] && h < b.heads
    ensures Total(b.lengths[..s]) + b.lengths[s] <= |b.q|
    ensures SliceRow(exp, log, SliceOf(b, s), i, h) == PassRow(exp, log, b, Total(b.lengths[..s]) + i, h)
  {
    hide RowFor, Total, KeysOf, Allow, Laws;
    SliceArgsAreWindow(b, s, i, h);
    var off := Total(b.lengths[..s]);
    WindowFor(exp, log, PassArgs(b, off + i, h), b.scale, off, off + b.lengths[s]);
  }

  /** Entropies of one sequence, token by token. */
  function SliceEntropies(exp: real -> real, log: real -> real, c: Batch): (r: seq<seq<real>>)
    requires Laws(exp, log) && c.Ok()
    ensures |r| == |c.q|
  {
    seq(|c.q|, i requires 0 <= i < |c.q| => seq(c.heads, h requires 0 <= h < c.heads =>
      SliceRow(exp, log, c, i, h).entropy))
  }

  function SliceLses(exp: real -> real, log: real -> real, c: Batch): (r: seq<seq<real>>)
    requires Laws(exp, log) && c.Ok()
    ensures |r| == |c.q|
  {
    seq(|c.q|, i requires 0 <= i < |c.q| => seq(c.heads, h requires 0 <= h < c.heads =>
      SliceRow(exp, log, c, i, h).lse))
  }

  /** The tables of a sequence are the rows of its tokens in the tables of the single pass. */
  lemma SliceTables(exp: real -> real, log: real -> real, b: Batch, s: nat)
    requires Laws(exp, log) && b.Ok() && s < |b.lengths|
    ensures Total(b.lengths[..s]) + b.lengths[s] <= |b.q|
    ensures var off, n := Total(b.lengths[..s]), b.lengths[s];
      && SliceEntropies(exp, log, SliceOf(b, s)) == PassEntropies(exp, log, b)[off..off + n]
      && SliceLses(exp, log, SliceOf(b, s)) == PassLses(exp, log, b)[off..off + n]
  {
    hide SliceRow, PassRow;
    SliceInside(b.lengths, s);
    var off, n, c := Total(b.lengths[..s]), b.lengths[s], SliceOf(b, s);
    forall i: nat | i < n
      ensures SliceEntropies(exp, log, c)[i] == PassEntropies(exp, log, b)[off + i]
      ensures SliceLses(exp, log, c)[i] == PassLses(exp, log, b)[off + i]
    {
      SliceTablesAt(exp, log, b, s, i);
    }
  }

  lemma SliceTablesAt(exp: real -> real, log: real -> real, b: Batch, s: nat, i: nat)
    requires Laws(exp, log) && b.Ok() && s < |b.lengths| && i < b.lengths[s]
    ensures Total(b.lengths[..s]) + b.lengths[s] <= |b.q|
    ensures SliceEntropies(exp, log, SliceOf(b, s))[i] == PassEntropies(exp, log, b)[Total(b.lengths[..s]) + i]
    ensures SliceLses(exp, log, SliceOf(b, s))[i] == PassLses(exp, log, b)[Total(b.lengths[..s]) + i]
  {
    hide RowFor, Laws, SliceRow, PassRow, Total;
    SliceInside(b.lengths, s);
    forall h: nat | h < b.heads
      ensures SliceRow(exp, log, SliceOf(b, s), i, h) == PassRow(exp, log, b, Total(b.lengths[..s]) + i, h)
    {
      SliceRowIsPassRow(exp, log, b, s, i, h);
    }
  }

  lemma Extend<T>(xs: seq<T>, off: nat, n: nat)
    requires off + n <= |xs|
    ensures xs[..off] + xs[off..off + n] == xs[..off + n]
  {}

  /** The reference over concatenated sequences is the single pass over all rows. */
  method RefPerSequence(exp: real -> real, log: real -> real, b: Batch)
      returns (entropies: seq<seq<real>>, lses: seq<seq<real>>)
    requires Laws(exp, log) && b.Ok() && b.lengths != []
    ensures entropies == PassEntropies(exp, log, b) && lses == PassLses(exp, log, b)
  {
    hide SliceRow, PassRow;
    entropies, lses := [], [];
    ghost var e, l := PassEntropies(exp, log, b), PassLses(exp, log, b);
    var off := 0;
    for s := 0 to |b.lengths|
      invariant off == Total(b.lengths[..s]) <= |b.q|
      invariant entropies == e[..off] && lses == l[..off]
    {
      var n := b.lengths[s];
      SliceInside(b.lengths, s);
      var slice := b.(q := b.q[off..off + n], k := b.k[off..off + n], lengths := [n]);
      assert slice == SliceOf(b, s);
      SliceTables(exp, log, b, s);
      Extend(e, off, n);
      Extend(l, off, n);
      entropies := entropies + SliceEntropies(exp, log, slice);
      lses := lses + SliceLses(exp, log, slice);
      off := off + n;
    }
    assert b.lengths[..|b.lengths|] == b.lengths;
  }

  /** On the concatenated sequences too, H = lse - scale * <q, O^K> of the operator is the
      reference entropy of exactly the rows whose kept probabilities reach the clamp. */
  lemma FusedTndIsReference(exp: real -> real, log: real -> real, b: Batch, t: nat, h: nat)
    requires Laws(exp, log) && b.Ok() && t < |b.q| && h < b.heads
    ensures |PassEntropies(exp, log, b)[t]| == |PassLses(exp, log, b)[t]| == b.heads
    ensures var a := PassArgs(b, t, h);
      var fused := FusedRow(exp, log, a.q, a.ks, a.ks, b.scale, a.keep);
      && fused.lse == PassLses(exp, log, b)[t][h]
      && (FastEntropy(fused.lse, a.q, fused.out, b.scale) == PassEntropies(exp, log, b)[t][h] <==>
            RowClampInert(exp, log, a.q, a.ks, b.scale, a.keep))
  {
    var a := PassArgs(b, t, h);
    RowsAgree(exp, log, a.q, a.ks, b.scale, a.keep);
  }

  // ----- the layouts of the operator's log-sum-exp -----

  /** A matrix by rows, or with one more axis. */
  datatype Raw = Two(rows: seq<seq<real>>) | Three(planes: seq<seq<seq<real>>>)

  ghost predicate Rect<T>(rows: seq<seq<T>>, height: nat, width: nat) {
    |rows| == height && forall i :: 0 <= i < height ==> |rows[i]| == width
  }

  function Transpose(rows: seq<seq<real>>, width: nat): seq<seq<real>>
    requires Rect(rows, |rows|, width)
  {
    seq(width, j requires 0 <= j < width => seq(|rows|, i requires 0 <= i < |rows| => rows[i][j]))
  }

  function AddAxis(rows: seq<seq<real>>): seq<seq<seq<real>>> {
    seq(|rows|, i requires 0 <= i < |rows| => seq(|rows[i]|, j requires 0 <= j < |rows[i]| => [rows[i][j]]))
  }

  predicate LastAxisIsOne(planes: seq<seq<seq<real>>>) {
    forall i, j :: 0 <= i < |planes| && 0 <= j < |planes[i]| ==> |planes[i][j]| == 1
  }

  function Squeeze(planes: seq<seq<seq<real>>>): seq<seq<real>>
    requires LastAxisIsOne(planes)
  {
    seq(|planes|, i requires 0 <= i < |planes| => seq(|planes[i]|, j requires 0 <= j < |planes[i]| => planes[i][j][0]))
  }

  /** as_TH for T tokens; a third axis other than one stays. */
  function AsTH(x: Raw, tokens: nat): Raw
    requires x.Two? ==> x.rows != [] && Rect(x.rows, |x.rows|, |x.rows[0]|)
    requires x.Three? ==> x.planes != [] && Rect(x.planes, |x.planes|, |x.planes[0]|) && LastAxisIsOne(x.planes)
  {
    var rows := if x.Three? then Squeeze(x.planes) else x.rows;
    if |rows| != tokens && |rows[0]| == tokens then Two(Transpose(rows, |rows[0]|)) else Two(rows)
  }

  lemma SqueezeUndoesAddAxis(rows: seq<seq<real>>)
    ensures LastAxisIsOne(AddAxis(rows)) && Squeeze(AddAxis(rows)) == rows
  {
    assert forall i :: 0 <= i < |rows| ==> Squeeze(AddAxis(rows))[i] == rows[i];
  }

  lemma TransposeTwice(rows: seq<seq<real>>, width: nat)
    requires Rect(rows, |rows|, width)
    ensures Rect(Transpose(rows, width), width, |rows|) && Transpose(Transpose(rows, width), |rows|) == rows
  {
    assert forall i :: 0 <= i < |rows| ==> Transpose(Transpose(rows, width), |rows|)[i] == rows[i];
  }

  /** From (T, N) and (T, N, 1) the array is always recovered; from (N, T, 1) exactly when
      the heads differ from T, or the array is its own transpose. */
  lemma AsTHRecovers(rows: seq<seq<real>>, tokens: nat, heads: nat)
    requires tokens > 0 && heads > 0 && Rect(rows, tokens, heads)
    ensures AsTH(Two(rows), tokens) == Two(rows)
    ensures LastAxisIsOne(AddAxis(rows)) && AsTH(Three(AddAxis(rows)), tokens) == Two(rows)
    ensures Rect(Transpose(rows, heads), heads, tokens) && LastAxisIsOne(AddAxis(Transpose(rows, heads)))
    ensures AsTH(Three(AddAxis(Transpose(rows, heads))), tokens) == Two(rows)
       <==> heads != tokens || Transpose(rows, heads) == rows
  {
    SqueezeUndoesAddAxis(rows);
    TransposeTwice(rows, heads);
    SqueezeUndoesAddAxis(Transpose(rows, heads));
  }
}
