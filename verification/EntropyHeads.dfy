/** Whole arrays of heads and rows: the reference computation against the fused operator. */
module EntropyHeads {
  import opened Common
  import opened Entropy

  /** One head: rows of vectors. */
  type Head = seq<seq<real>>

  // ----- grouped heads -----

  /** repeat_interleave along the head axis. */
  function RepeatInterleave<T>(heads: seq<T>, times: nat): (r: seq<T>)
    ensures |r| == |heads| * times
  {
    if heads == [] then []
    else RepeatInterleave(heads[..|heads| - 1], times) + seq(times, i => heads[|heads| - 1])
  }

  lemma {:induction false} RepeatInterleaveAt<T>(heads: seq<T>, times: nat, h: nat)
    requires times > 0 && h < |heads| * times
    ensures h / times < |heads| && RepeatInterleave(heads, times)[h] == heads[h / times]
  {
    var n := |heads| - 1;
    assert |heads| * times == n * times + times;
    if h < n * times {
      RepeatInterleaveAt(heads[..n], times, h);
    } else {
      DivUnique(h, times, n, h - n * times);
    }
  }

  /** The keys the reference gives each of `numHeads` query heads. */
  function ExpandHeads<T>(k: seq<T>, numHeads: nat): seq<T>
    requires k != []
  {
    if |k| != numHeads then RepeatInterleave(k, numHeads / |k|) else k
  }

  /** The key head the operator reads for query head h. */
  function GroupOf(numHeads: nat, kvHeads: nat, h: nat): (g: nat)
    requires kvHeads > 0 && numHeads % kvHeads == 0 && h < numHeads
    ensures g < kvHeads
  {
    GroupFits(numHeads, kvHeads, h);
    h / (numHeads / kvHeads)
  }

  lemma GroupFits(numHeads: nat, kvHeads: nat, h: nat)
    requires kvHeads > 0 && numHeads % kvHeads == 0 && h < numHeads
    ensures numHeads / kvHeads > 0 && h / (numHeads / kvHeads) < kvHeads
    ensures kvHeads * (numHeads / kvHeads) == numHeads
  {
    var times := numHeads / kvHeads;
    assert numHeads == kvHeads * times;
    MulCancel(0, times, kvHeads);
    assert h == h / times * times + h % times;
    MulCancel(h / times, kvHeads, times);
  }

  /** The expansion gives each query head the key head the operator reads. */
  lemma ExpandHeadsAt<T>(k: seq<T>, numHeads: nat, h: nat)
    requires k != [] && numHeads % |k| == 0 && h < numHeads
    ensures |ExpandHeads(k, numHeads)| == numHeads
    ensures h / (numHeads / |k|) == GroupOf(numHeads, |k|, h)
    ensures ExpandHeads(k, numHeads)[h] == k[GroupOf(numHeads, |k|, h)]
  {
    GroupFits(numHeads, |k|, h);
    if |k| != numHeads {
      RepeatInterleaveAt(k, numHeads / |k|, h);
    } else {
      DivUnique(numHeads, numHeads, 1, 0);
    }
  }

  // ----- the reference and the operator, row by row -----

  /** A row that can be computed: the shapes fit and some key is kept. */
  predicate RowOk(q: seq<real>, ks: Head, keep: seq<bool>) {
    Vectors(ks, |q|) && |keep| == |ks| && exists j :: 0 <= j < |keep| && keep[j]
  }

  lemma RowHasWeight(exp: real -> real, log: real -> real, q: seq<real>, ks: Head, scale: real, keep: seq<bool>)
    requires Laws(exp, log) && RowOk(q, ks, keep)
    ensures SomeKept(Scores(q, ks, scale, keep)) && Normal(exp, Scores(q, ks, scale, keep)) > 0.0
    ensures ScoresOf(Scores(q, ks, scale, keep), Dots(q, ks), scale)
  {
    var j :| 0 <= j < |keep| && keep[j];
    assert Scores(q, ks, scale, keep)[j].Finite?;
    NormalPositive(exp, Scores(q, ks, scale, keep));
  }

  /** Entropy and log-sum-exp of one row. */
  datatype Row = Row(entropy: real, lse: real)

  /** Attention output and log-sum-exp of one row, as the fused operator returns them. */
  datatype Attention = Attention(out: seq<real>, lse: real)

  function RefRow(exp: real -> real, log: real -> real, q: seq<real>, ks: Head, scale: real, keep: seq<bool>): Row
    requires Laws(exp, log) && RowOk(q, ks, keep)
  {
    RowHasWeight(exp, log, q, ks, scale, keep);
    var scores := Scores(q, ks, scale, keep);
    Row(NaiveEntropy(exp, log, scores), LogSumExp(exp, log, scores))
  }

  function FusedRow(exp: real -> real, log: real -> real, q: seq<real>, ks: Head, vs: Head, scale: real, keep: seq<bool>):
      (a: Attention)
    requires Laws(exp, log) && RowOk(q, ks, keep) && |vs| == |ks| && Vectors(vs, |q|)
    ensures |a.out| == |q|
  {
    RowHasWeight(exp, log, q, ks, scale, keep);
    var scores := Scores(q, ks, scale, keep);
    Attention(Weighted(Softmax(exp, scores), vs, |q|), LogSumExp(exp, log, scores))
  }

  /** Every kept probability of the row reaches the clamp. */
  ghost predicate RowClampInert(exp: real -> real, log: real -> real, q: seq<real>, ks: Head, scale: real, keep: seq<bool>)
    requires Laws(exp, log) && RowOk(q, ks, keep)
  {
    RowHasWeight(exp, log, q, ks, scale, keep);
    var scores := Scores(q, ks, scale, keep);
    ClampInert(scores, Softmax(exp, scores))
  }

  /** Called with the keys as values, the operator gives the reference log-sum-exp, and the
      reference entropy exactly when the clamp is inert. */
  lemma RowsAgree(exp: real -> real, log: real -> real, q: seq<real>, ks: Head, scale: real, keep: seq<bool>)
    requires Laws(exp, log) && RowOk(q, ks, keep)
    ensures var fused, row := FusedRow(exp, log, q, ks, ks, scale, keep), RefRow(exp, log, q, ks, scale, keep);
      && fused.lse == row.lse
      && row.entropy <= FastEntropy(fused.lse, q, fused.out, scale)
      && (row.entropy == FastEntropy(fused.lse, q, fused.out, scale) <==> RowClampInert(exp, log, q, ks, scale, keep))
  {
    RowHasWeight(exp, log, q, ks, scale, keep);
    FastIsNaive(exp, log, q, ks, scale, Scores(q, ks, scale, keep));
  }

  // ----- all heads -----

  /** Row `i` of a query head fits every key head. */
  ghost predicate FitsAll(q: seq<real>, k: seq<Head>, keep: seq<bool>) {
    forall g :: 0 <= g < |k| ==> RowOk(q, k[g], keep)
  }

  /** Queries `q` against keys `k`, both head by head; `keep` is shared by the heads. */
  ghost predicate HeadsOk(q: seq<Head>, k: seq<Head>, keep: seq<seq<bool>>) {
    && k != [] && |q| % |k| == 0
    && forall h :: 0 <= h < |q| ==> |q[h]| == |keep| && forall i :: 0 <= i < |keep| ==> FitsAll(q[h][i], k, keep[i])
  }

  /** ref_entropy at head h, row i. */
  function RefEntropy(exp: real -> real, log: real -> real, q: seq<Head>, k: seq<Head>, scale: real,
                      keep: seq<seq<bool>>, h: nat, i: nat): Row
    requires Laws(exp, log) && HeadsOk(q, k, keep) && h < |q| && i < |keep|
  {
    ExpandHeadsAt(k, |q|, h);
    assert FitsAll(q[h][i], k, keep[i]);
    RefRow(exp, log, q[h][i], ExpandHeads(k, |q|)[h], scale, keep[i])
  }

  /** The fused operator with the keys as values, at head h, row i; it reads the keys of
      the group. */
  function FusedKeys(exp: real -> real, log: real -> real, q: seq<Head>, k: seq<Head>, scale: real,
                     keep: seq<seq<bool>>, h: nat, i: nat): (a: Attention)
    requires Laws(exp, log) && HeadsOk(q, k, keep) && h < |q| && i < |keep|
    ensures |a.out| == |q[h][i]|
  {
    var g := GroupOf(|q|, |k|, h);
    assert FitsAll(q[h][i], k, keep[i]);
    FusedRow(exp, log, q[h][i], k[g], k[g], scale, keep[i])
  }

  /** Every kept probability of head h, row i reaches the clamp. */
  ghost predicate InertAt(exp: real -> real, log: real -> real, q: seq<Head>, k: seq<Head>, scale: real,
                          keep: seq<seq<bool>>, h: nat, i: nat)
    requires Laws(exp, log) && HeadsOk(q, k, keep) && h < |q| && i < |keep|
  {
    assert FitsAll(q[h][i], k, keep[i]);
    RowClampInert(exp, log, q[h][i], k[GroupOf(|q|, |k|, h)], scale, keep[i])
  }

  /** For every scale, mask and grouping, H = lse - scale * <q, O^K> is the reference
      entropy of exactly the heads and rows whose kept probabilities reach the clamp. */
  lemma FusedEntropyIsReference(exp: real -> real, log: real -> real, q: seq<Head>, k: seq<Head>, scale: real,
                                keep: seq<seq<bool>>, h: nat, i: nat)
    requires Laws(exp, log) && HeadsOk(q, k, keep) && h < |q| && i < |keep|
    ensures var fused, ref := FusedKeys(exp, log, q, k, scale, keep, h, i), RefEntropy(exp, log, q, k, scale, keep, h, i);
      && fused.lse == ref.lse
      && (FastEntropy(fused.lse, q[h][i], fused.out, scale) == ref.entropy <==> InertAt(exp, log, q, k, scale, keep, h, i))
  {
    ExpandHeadsAt(k, |q|, h);
    assert FitsAll(q[h][i], k, keep[i]);
    RowsAgree(exp, log, q[h][i], k[GroupOf(|q|, |k|, h)], scale, keep[i]);
  }
}
