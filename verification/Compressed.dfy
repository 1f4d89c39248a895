/** Compressed position ids: a batch computed with prefix sums equals the requests one by
    one, and over a whole run a request receives every id once. */
module Compressed {
  import opened Common

  // ----- array operations -----

  function Sum(xs: seq<nat>): nat {
    if xs == [] then 0 else Sum(xs[..|xs| - 1]) + xs[|xs| - 1]
  }

  function Cumsum(xs: seq<nat>): (sums: seq<nat>)
    ensures |sums| == |xs|
  {
    if xs == [] then [] else Cumsum(xs[..|xs| - 1]) + [Sum(xs)]
  }

  /** Entry by entry; a single entry on the right is broadcast. */
  function Minus(xs: seq<int>, ys: seq<int>): (zs: seq<int>)
    requires |ys| == |xs| || |ys| == 1
    ensures |zs| == |xs|
  {
    seq(|xs|, i requires 0 <= i < |xs| => xs[i] - ys[if |ys| == 1 then 0 else i])
  }

  function Plus(xs: seq<int>, ys: seq<int>): seq<int>
    requires |xs| == |ys|
  {
    seq(|xs|, i requires 0 <= i < |xs| => xs[i] + ys[i])
  }

  function Copies(x: int, n: nat): seq<int> { seq(n, i => x) }

  /** np.repeat */
  function Repeat(xs: seq<int>, counts: seq<nat>): seq<int>
    requires |xs| == |counts|
  {
    if xs == [] then []
    else
      var n := |xs| - 1;
      Repeat(xs[..n], counts[..n]) + Copies(xs[n], counts[n])
  }

  lemma {:induction false} RepeatLength(xs: seq<int>, counts: seq<nat>)
    requires |xs| == |counts|
    ensures |Repeat(xs, counts)| == Sum(counts)
  {
    if xs != [] { RepeatLength(xs[..|xs| - 1], counts[..|xs| - 1]); }
  }

  // ----- one group of the KV cache -----

  /** Ratios 0 and 1 both mean "not compressed". */
  function Compress(tokens: nat, ratio: int): nat { if ratio > 1 then tokens / ratio else tokens }

  lemma CompressMonotone(m: nat, n: nat, ratio: int)
    requires m <= n
    ensures Compress(m, ratio) <= Compress(n, ratio)
  {
    if ratio > 1 {
      var a, b := m / ratio, n / ratio;
      assert a * ratio <= m && n < (b + 1) * ratio;
      MulCancel(a, b + 1, ratio);
    }
  }

  function Lengths(tokens: seq<nat>, ratio: int): (lens: seq<nat>)
    ensures |lens| == |tokens|
  {
    seq(|tokens|, i requires 0 <= i < |tokens| => Compress(tokens[i], ratio))
  }

  function NewCount(computed: nat, scheduled: nat, ratio: int): nat {
    CompressMonotone(computed, computed + scheduled, ratio);
    Compress(computed + scheduled, ratio) - Compress(computed, ratio)
  }

  /** num_new_compressed_pos */
  function NewCounts(computed: seq<nat>, scheduled: seq<nat>, ratio: int): (counts: seq<nat>)
    requires |computed| == |scheduled|
    ensures |counts| == |computed|
  {
    seq(|computed|, i requires 0 <= i < |computed| => NewCount(computed[i], scheduled[i], ratio))
  }

  /** prefix_offsets; for an empty batch it still has one entry. */
  function Offsets(counts: seq<nat>): (offsets: seq<nat>)
    ensures |offsets| == if counts == [] then 1 else |counts|
  {
    [0] + Cumsum(if counts == [] then [] else counts[..|counts| - 1])
  }

  /** pos_starts - prefix_offsets */
  function ShiftsOf(starts: seq<nat>, counts: seq<nat>): (shifts: seq<int>)
    requires |starts| == |counts|
    ensures |shifts| == |starts|
  {
    Minus(starts, Offsets(counts))
  }

  /** The prefix-sum form. */
  function Positions(starts: seq<nat>, counts: seq<nat>): seq<int>
    requires |starts| == |counts|
  {
    RepeatLength(ShiftsOf(starts, counts), counts);
    Plus(Range(0, Sum(counts)), Repeat(ShiftsOf(starts, counts), counts))
  }

  // ----- the simple form: request by request -----

  function OneByOne(starts: seq<nat>, counts: seq<nat>): seq<int>
    requires |starts| == |counts|
  {
    if starts == [] then []
    else
      var n := |starts| - 1;
      OneByOne(starts[..n], counts[..n]) + Range(starts[n], starts[n] + counts[n])
  }

  /** Prefix offsets of a longer batch extend those of the shorter one. */
  lemma OffsetsAppend(counts: seq<nat>, count: nat)
    ensures Offsets(counts + [count]) == if counts == [] then [0] else Offsets(counts) + [Sum(counts)]
  {
    assert (counts + [count])[..|counts|] == counts;
    if counts != [] {
      assert Cumsum(counts) == Cumsum(counts[..|counts| - 1]) + [Sum(counts)];
    }
  }

  lemma ShiftsAppend(starts: seq<nat>, counts: seq<nat>, start: nat, count: nat)
    requires |starts| == |counts|
    ensures ShiftsOf(starts + [start], counts + [count]) == ShiftsOf(starts, counts) + [start - Sum(counts)]
  {
    hide Offsets, Sum;
    OffsetsAppend(counts, count);
    if counts != [] {
      MinusAppend(starts, Offsets(counts), start, Sum(counts));
    } else {
      FirstShift(start, count);
      assert starts == [] && counts == [];
    }
  }

  lemma FirstShift(start: nat, count: nat)
    ensures ShiftsOf([] + [start], [] + [count]) == ShiftsOf([], []) + [start - Sum([])]
  {
    assert Minus([start], [0]) == [start];
    assert [count][..0] == [];
  }

  lemma MinusAppend(xs: seq<int>, ys: seq<int>, x: int, y: int)
    requires |xs| == |ys| > 0
    ensures Minus(xs + [x], ys + [y]) == Minus(xs, ys) + [x - y]
  {}

  lemma RepeatAppend(xs: seq<int>, counts: seq<nat>, x: int, count: nat)
    requires |xs| == |counts|
    ensures Repeat(xs + [x], counts + [count]) == Repeat(xs, counts) + Copies(x, count)
  {
    assert (xs + [x])[..|xs|] == xs && (counts + [count])[..|xs|] == counts;
  }

  lemma AppendRequest(shifts: seq<int>, front: seq<nat>, start: nat, last: nat)
    requires |shifts| == |front| && |Repeat(shifts, front)| == Sum(front)
    ensures Plus(Range(0, Sum(front) + last), Repeat(shifts, front) + Copies(start - Sum(front), last))
         == Plus(Range(0, Sum(front)), Repeat(shifts, front)) + Range(start, start + last)
  {}

  lemma PositionsAppend(starts: seq<nat>, counts: seq<nat>, start: nat, count: nat)
    requires |starts| == |counts|
    ensures Positions(starts + [start], counts + [count]) == Positions(starts, counts) + Range(start, start + count)
  {
    var shifts := ShiftsOf(starts, counts);
    ShiftsAppend(starts, counts, start, count);
    RepeatLength(shifts, counts);
    RepeatAppend(shifts, counts, start - Sum(counts), count);
    assert (counts + [count])[..|counts|] == counts;
    AppendRequest(shifts, counts, start, count);
  }

  /** The vectorised positions are the ranges of the requests, one after another. */
  lemma {:induction false} PositionsOneByOne(starts: seq<nat>, counts: seq<nat>)
    requires |starts| == |counts|
    ensures Positions(starts, counts) == OneByOne(starts, counts)
  {
    if starts != [] {
      var n := |starts| - 1;
      var front, back := starts[..n], counts[..n];
      assert starts == front + [starts[n]] && counts == back + [counts[n]];
      PositionsOneByOne(front, back);
      PositionsAppend(front, back, starts[n], counts[n]);
    }
  }

  // ----- one request out of a batch -----

  /** The entries of `xs` whose index is `i`. */
  function Pick(xs: seq<int>, indices: seq<int>, i: int): seq<int>
    requires |xs| == |indices|
  {
    if xs == [] then []
    else
      var n := |xs| - 1;
      Pick(xs[..n], indices[..n], i) + (if indices[n] == i then [xs[n]] else [])
  }

  lemma {:induction false} PickAppend(xs: seq<int>, indices: seq<int>, ys: seq<int>, more: seq<int>, i: int)
    requires |xs| == |indices| && |ys| == |more|
    ensures Pick(xs + ys, indices + more, i) == Pick(xs, indices, i) + Pick(ys, more, i)
  {
    if ys == [] {
      assert xs + ys == xs && indices + more == indices;
    } else {
      var n := |ys| - 1;
      var front, back := xs + ys[..n], indices + more[..n];
      PickAppend(xs, indices, ys[..n], more[..n], i);
      assert (xs + ys)[..|xs| + n] == front && (indices + more)[..|xs| + n] == back;
    }
  }

  lemma {:induction false} PickCopies(xs: seq<int>, j: int, i: int)
    ensures Pick(xs, Copies(j, |xs|), i) == if i == j then xs else []
  {
    if xs != [] {
      var n := |xs| - 1;
      PickCopies(xs[..n], j, i);
      assert Copies(j, |xs|)[..n] == Copies(j, n);
      assert xs == xs[..n] + [xs[n]];
    }
  }

  lemma {:induction false} OneByOneLength(starts: seq<nat>, counts: seq<nat>)
    requires |starts| == |counts|
    ensures |OneByOne(starts, counts)| == Sum(counts)
  {
    if starts != [] { OneByOneLength(starts[..|starts| - 1], counts[..|starts| - 1]); }
  }

  lemma IndicesAppend(counts: seq<nat>, count: nat)
    ensures Repeat(Range(0, |counts| + 1), counts + [count])
         == Repeat(Range(0, |counts|), counts) + Copies(|counts|, count)
  {
    var indices := Range(0, |counts|);
    RangeAppend(0, |counts|);
    RepeatAppend(indices, counts, |counts|, count);
    hide Repeat, Range;
  }

  /** The positions of request `i` among those of the whole batch. */
  function OwnOf(starts: seq<nat>, counts: seq<nat>, i: nat): seq<int>
    requires |starts| == |counts|
  {
    OneByOneLength(starts, counts);
    RepeatLength(Range(0, |starts|), counts);
    Pick(OneByOne(starts, counts), Repeat(Range(0, |starts|), counts), i)
  }

  /** Request `i` of the batch owns exactly its own range. */
  lemma {:induction false} OwnPositions(starts: seq<nat>, counts: seq<nat>, i: nat)
    requires |starts| == |counts|
    ensures OwnOf(starts, counts, i) == if i < |starts| then Range(starts[i], starts[i] + counts[i]) else []
  {
    if starts == [] {
    } else {
      OwnAppend(starts, counts, i);
      OwnPositions(starts[..|starts| - 1], counts[..|starts| - 1], i);
      hide OwnOf;
    }
  }

  lemma OwnAppend(starts: seq<nat>, counts: seq<nat>, i: nat)
    requires |starts| == |counts| && starts != []
    ensures var n := |starts| - 1;
      OwnOf(starts, counts, i)
      == OwnOf(starts[..n], counts[..n], i) + if i == n then Range(starts[n], starts[n] + counts[n]) else []
  {
    var n := |starts| - 1;
    var own := Range(starts[n], starts[n] + counts[n]);
    var xs, indices := OneByOne(starts[..n], counts[..n]), Repeat(Range(0, n), counts[..n]);
    assert OneByOne(starts, counts) == xs + own;
    assert counts == counts[..n] + [counts[n]];
    IndicesAppend(counts[..n], counts[n]);
    OneByOneLength(starts[..n], counts[..n]);
    RepeatLength(Range(0, n), counts[..n]);
    PickLast(xs, indices, own, n, i);
    hide Pick, OneByOne, Repeat;
  }

  /** The last request of the batch adds its range to its own positions only. */
  lemma PickLast(xs: seq<int>, indices: seq<int>, own: seq<int>, n: int, i: int)
    requires |xs| == |indices|
    ensures Pick(xs + own, indices + Copies(n, |own|), i) == Pick(xs, indices, i) + if i == n then own else []
  {
    PickCopies(own, n, i);
    PickAppend(xs, indices, own, Copies(n, |own|), i);
  }

  // ----- a whole run -----

  /** One scheduler step: the requests in the batch and their token counts. */
  datatype Step = Step(ids: seq<nat>, computed: seq<nat>, scheduled: seq<nat>)

  predicate WellFormed(s: Step) {
    && |s.ids| == |s.computed| == |s.scheduled|
    && forall i, j :: 0 <= i < j < |s.ids| ==> s.ids[i] != s.ids[j]
  }

  /** What the request with index `i` of the batch receives. */
  function Received(s: Step, i: nat, ratio: int): seq<int>
    requires WellFormed(s)
  {
    var starts, counts := Lengths(s.computed, ratio), NewCounts(s.computed, s.scheduled, ratio);
    PositionsOneByOne(starts, counts);
    OneByOneLength(starts, counts);
    RepeatLength(Range(0, |s.ids|), counts);
    Pick(Positions(starts, counts), Repeat(Range(0, |s.ids|), counts), i)
  }

  lemma ReceivedIsRange(s: Step, i: nat, ratio: int)
    requires WellFormed(s) && i < |s.ids|
    ensures Received(s, i, ratio)
         == Range(Compress(s.computed[i], ratio), Compress(s.computed[i] + s.scheduled[i], ratio))
  {
    var starts, counts := Lengths(s.computed, ratio), NewCounts(s.computed, s.scheduled, ratio);
    PositionsOneByOne(starts, counts);
    OwnPositions(starts, counts, i);
  }

  predicate AllWellFormed(run: seq<Step>) { forall k :: 0 <= k < |run| ==> WellFormed(run[k]) }

  /** The tokens a request was scheduled for over a run. */
  function Total(run: seq<Step>, id: nat): nat
    requires AllWellFormed(run)
  {
    if run == [] then 0
    else
      var last := run[|run| - 1];
      Total(run[..|run| - 1], id) + (if id in last.ids then last.scheduled[IndexOf(last.ids, id)] else 0)
  }

  /** Each step of the request starts where the last one ended. */
  ghost predicate Continues(run: seq<Step>, id: nat) {
    && AllWellFormed(run)
    && forall k :: 0 <= k < |run| && id in run[k].ids ==>
         run[k].computed[IndexOf(run[k].ids, id)] == Total(run[..k], id)
  }

  /** All positions a request receives over a run. */
  function AllReceived(run: seq<Step>, id: nat, ratio: int): seq<int>
    requires AllWellFormed(run)
  {
    if run == [] then []
    else
      var last := run[|run| - 1];
      AllReceived(run[..|run| - 1], id, ratio)
      + (if id in last.ids then Received(last, IndexOf(last.ids, id), ratio) else [])
  }

  /** The last step of a run. */
  lemma RunAppend(run: seq<Step>, id: nat, ratio: int)
    requires Continues(run, id) && run != []
    ensures var front, last := run[..|run| - 1], run[|run| - 1];
      && Continues(front, id) && WellFormed(last)
      && (id !in last.ids ==>
            Total(run, id) == Total(front, id) && AllReceived(run, id, ratio) == AllReceived(front, id, ratio))
      && (id in last.ids ==>
            && last.computed[IndexOf(last.ids, id)] == Total(front, id)
            && Total(run, id) == Total(front, id) + last.scheduled[IndexOf(last.ids, id)]
            && AllReceived(run, id, ratio)
               == AllReceived(front, id, ratio) + Received(last, IndexOf(last.ids, id), ratio))
  {
    ContinuesFront(run, id);
  }

  /** Over any run a request receives 0, 1, 2, ... once each and in order. */
  lemma {:induction false} EveryPositionOnce(run: seq<Step>, id: nat, ratio: int)
    requires Continues(run, id)
    ensures AllReceived(run, id, ratio) == Range(0, Compress(Total(run, id), ratio))
  {
    if run == [] {
    } else {
      var front, last := run[..|run| - 1], run[|run| - 1];
      RunAppend(run, id, ratio);
      EveryPositionOnce(front, id, ratio);
      if id in last.ids { NextRange(last, id, Total(front, id), ratio); }
    }
  }

  /** A step that starts at `m` tokens continues the ids received so far. */
  lemma NextRange(step: Step, id: nat, m: nat, ratio: int)
    requires WellFormed(step) && id in step.ids && step.computed[IndexOf(step.ids, id)] == m
    ensures var i := IndexOf(step.ids, id);
      Range(0, Compress(m, ratio)) + Received(step, i, ratio) == Range(0, Compress(m + step.scheduled[i], ratio))
  {
    var i := IndexOf(step.ids, id);
    ReceivedIsRange(step, i, ratio);
    CompressMonotone(m, m + step.scheduled[i], ratio);
    RangesJoin(Compress(m, ratio), Compress(m + step.scheduled[i], ratio));
  }

  lemma RangesJoin(m: nat, n: nat)
    requires m <= n
    ensures Range(0, m) + Range(m, n) == Range(0, n)
  {}

  lemma ContinuesFront(run: seq<Step>, id: nat)
    requires Continues(run, id) && run != []
    ensures Continues(run[..|run| - 1], id) && WellFormed(run[|run| - 1])
    ensures id in run[|run| - 1].ids ==>
      run[|run| - 1].computed[IndexOf(run[|run| - 1].ids, id)] == Total(run[..|run| - 1], id)
  {
    var front := run[..|run| - 1];
    forall k | 0 <= k < |front| && id in front[k].ids
      ensures front[k].computed[IndexOf(front[k].ids, id)] == Total(front[..k], id)
    {
      assert front[..k] == run[..k] && front[k] == run[k];
    }
  }

  // ----- the same in numbers -----

  /** `k` compressed positions stand for `tokens` tokens: one for each full group of `ratio`. */
  predicate StandsFor(k: nat, tokens: nat, ratio: int) {
    if ratio > 1 then k * ratio <= tokens < (k + 1) * ratio else k == tokens
  }

  lemma CompressStands(tokens: nat, ratio: int)
    ensures StandsFor(Compress(tokens, ratio), tokens, ratio)
  {
    if ratio > 1 {
      var k := tokens / ratio;
      assert tokens == k * ratio + tokens % ratio;
    }
  }

  /** Over any run a request receives one position for each full group of tokens, in order. */
  lemma PositionsStandForTokens(run: seq<Step>, id: nat, ratio: int) returns (k: nat)
    requires Continues(run, id)
    ensures AllReceived(run, id, ratio) == Range(0, k) && StandsFor(k, Total(run, id), ratio)
  {
    k := Compress(Total(run, id), ratio);
    EveryPositionOnce(run, id, ratio);
    CompressStands(Total(run, id), ratio);
  }

  lemma CountsStand(computed: seq<nat>, scheduled: seq<nat>, ratio: int, i: nat) returns (m: nat, n: nat)
    requires |computed| == |scheduled| && i < |computed|
    ensures StandsFor(m, computed[i], ratio) && StandsFor(n, computed[i] + scheduled[i], ratio)
    ensures m <= n && Lengths(computed, ratio)[i] == m && NewCounts(computed, scheduled, ratio)[i] == n - m
  {
    m, n := Compress(computed[i], ratio), Compress(computed[i] + scheduled[i], ratio);
    CompressStands(computed[i], ratio);
    CompressStands(computed[i] + scheduled[i], ratio);
    CompressMonotone(computed[i], computed[i] + scheduled[i], ratio);
  }

  /** Entry t of request i in a batch: its position, and the index of the request. */
  lemma {:induction false} EntryOf(starts: seq<nat>, counts: seq<nat>, arange: seq<int>, i: nat, t: nat)
    requires |starts| == |counts| == |arange| && i < |counts| && t < counts[i]
    ensures Sum(counts[..i]) + t < |OneByOne(starts, counts)| == |Repeat(arange, counts)|
    ensures OneByOne(starts, counts)[Sum(counts[..i]) + t] == starts[i] + t
    ensures Repeat(arange, counts)[Sum(counts[..i]) + t] == arange[i]
  {
    var n := |counts| - 1;
    OneByOneLength(starts, counts);
    RepeatLength(arange, counts);
    OneByOneLength(starts[..n], counts[..n]);
    RepeatLength(arange[..n], counts[..n]);
    assert OneByOne(starts, counts) == OneByOne(starts[..n], counts[..n]) + Range(starts[n], starts[n] + counts[n]);
    assert Repeat(arange, counts) == Repeat(arange[..n], counts[..n]) + Copies(arange[n], counts[n]);
    hide OneByOne, Repeat;
    if i < n {
      EntryOf(starts[..n], counts[..n], arange[..n], i, t);
      assert counts[..n][..i] == counts[..i];
    }
    hide Sum;
  }

  // ----- the routine itself -----

  datatype Outcome =
    | NotUsed
    | AssertionError
    | ValueError // np.repeat: neither one count for each index nor a single count
    | Lists(positions: seq<seq<int>>, indices: seq<seq<int>>, lengths: seq<seq<nat>>)

  /** np.repeat stretches a single count over all entries. */
  function Broadcast(counts: seq<nat>, n: nat): seq<nat> {
    if |counts| == 1 then seq(n, i => counts[0]) else counts
  }

  lemma BroadcastIs(counts: seq<nat>, n: nat, i: nat)
    requires (|counts| == n || |counts| == 1) && i < n
    ensures |Broadcast(counts, n)| == n && Broadcast(counts, n)[i] == counts[if |counts| == 1 then 0 else i]
  {}

  predicate Repeats(arange: seq<int>, requests: nat) { requests == |arange| || requests == 1 }

  ghost predicate GroupRight(out: Outcome, k: nat, computed: seq<nat>, scheduled: seq<nat>, arange: seq<int>, ratio: int)
    requires |computed| == |scheduled| && Repeats(arange, |computed|) && out.Lists?
    requires k < |out.positions| == |out.indices| == |out.lengths|
  {
    var counts := NewCounts(computed, scheduled, ratio);
    && out.positions[k] == OneByOne(Lengths(computed, ratio), counts)
    && out.indices[k] == Repeat(arange, Broadcast(counts, |arange|))
    && out.lengths[k] == counts
  }

  predicate ValidInput(computed: seq<int>, scheduled: seq<int>) {
    |computed| == |scheduled| && forall i :: 0 <= i < |computed| ==> computed[i] >= 0 && scheduled[i] >= 0
  }

  /** `ratios` holds the compress ratio of each KV cache group. */
  method PositionsAndIndices(computed: seq<int>, scheduled: seq<int>, arange: seq<int>, useCompress: bool,
                             ratios: seq<int>)
      returns (out: Outcome)
    ensures out.NotUsed? <==> !useCompress
    ensures out.AssertionError? <==> useCompress && !ValidInput(computed, scheduled)
    ensures out.ValueError? <==>
      && useCompress && ValidInput(computed, scheduled) && ratios != []
      && |computed| != |arange| && |computed| != 1
    ensures out.Lists? ==>
      && |out.positions| == |out.indices| == |out.lengths| == |ratios| && ValidInput(computed, scheduled)
      && forall k :: 0 <= k < |ratios| ==>
           Repeats(arange, |computed|) && GroupRight(out, k, computed, scheduled, arange, ratios[k])
  {
    if !useCompress { return NotUsed; }
    if !ValidInput(computed, scheduled) { return AssertionError; }
    var done: seq<nat>, news: seq<nat> := computed, scheduled;
    out := Lists([], [], []);
    for k := 0 to |ratios|
      invariant out.Lists? && |out.positions| == |out.indices| == |out.lengths| == k
      invariant forall j :: 0 <= j < k ==>
        Repeats(arange, |done|) && GroupRight(out, j, done, news, arange, ratios[j])
      invariant k > 0 ==> Repeats(arange, |done|)
    {
      var starts, counts := Lengths(done, ratios[k]), NewCounts(done, news, ratios[k]);
      PositionsOneByOne(starts, counts);
      if !Repeats(arange, |counts|) { return ValueError; }
      out := Lists(out.positions + [Positions(starts, counts)],
                   out.indices + [Repeat(arange, Broadcast(counts, |arange|))],
                   out.lengths + [counts]);
    }
  }
}
