/** How the ranks of a data-parallel group pick a MoE communication method, with and
    without the all-reduce that tells them each other's token counts. */
module MoeSelect {
  import opened Common

  datatype Soc = A2 | A3 | A5 | P310 | OtherSoc

  datatype Comm = AllGather | MC2 | AllToAll | FusedMC2

  /** ValueError, ZeroDivisionError, and the TypeError of comparing with an unset capacity. */
  datatype Error = UnsupportedSoc | DivisionByZero | NoCapacity

  /** What the decisions read from the configuration and the process groups. */
  datatype Config = Config(
    soc: Soc,
    moe: bool, drafterMoe: bool,
    expertParallel: bool, epSize: nat,
    numExperts: nat, worldAcrossDp: nat, pipeline: nat, expertsPerToken: nat,
    enableFusedMc2: int, gmmCombineDecode: bool, w8a8Dynamic: bool,
    hasCaptureSizes: bool, maxCaptureSize: nat,
    maxBatchedTokens: nat, maxSeqs: nat, speculativeTokens: Option<nat>,
    kvConsumer: bool, hierarchical: bool, recomputeScheduler: bool, enablePrefillMc2: bool)

  // ----- selection -----

  function SelectA2(cfg: Config, capacity: Option<nat>, n: nat): Result<Comm, Error> {
    if cfg.pipeline == 0 then Err(DivisionByZero)
    else
      var ep := cfg.worldAcrossDp / cfg.pipeline;
      if ep == 0 then Err(DivisionByZero)
      else if cfg.numExperts / ep <= 24 && ep >= 16 then
        if capacity.None? then Err(NoCapacity)
        else if n <= capacity.value then Ok(MC2) else Ok(AllGather)
      else Ok(AllGather)
  }

  predicate DispatchFfnCombine(cfg: Config) { cfg.epSize <= 32 }

  predicate FusedDecode(cfg: Config) {
    if cfg.enableFusedMc2 == 1 then DispatchFfnCombine(cfg)
    else if cfg.enableFusedMc2 == 2 then cfg.gmmCombineDecode && cfg.w8a8Dynamic
    else cfg.enableFusedMc2 != 0
  }

  predicate FusedPrefill(cfg: Config) {
    if cfg.enableFusedMc2 == 1 then DispatchFfnCombine(cfg)
    else if cfg.enableFusedMc2 == 2 then false
    else cfg.enableFusedMc2 != 0
  }

  function SelectA3(cfg: Config, capacity: Option<nat>, n: nat): Result<Comm, Error> {
    if capacity.None? then Err(NoCapacity)
    else if n <= capacity.value then Ok(if FusedDecode(cfg) then FusedMC2 else MC2)
    else Ok(if FusedPrefill(cfg) then FusedMC2 else AllToAll)
  }

  function SelectA5(cfg: Config, capacity: Option<nat>, n: nat): Result<Comm, Error> {
    if capacity.None? then Err(NoCapacity)
    else if n <= capacity.value && cfg.worldAcrossDp > 1 then Ok(MC2)
    else if cfg.worldAcrossDp <= cfg.expertsPerToken then Ok(AllGather)
    else Ok(AllToAll)
  }

  /** None for a model without experts. */
  function Select(cfg: Config, capacity: Option<nat>, n: nat): Result<Option<Comm>, Error> {
    if !cfg.moe then Ok(None)
    else
      var comm :=
        if !cfg.expertParallel || cfg.epSize == 1 then Ok(AllGather)
        else match cfg.soc
          case A2 => SelectA2(cfg, capacity, n)
          case A3 => SelectA3(cfg, capacity, n)
          case A5 => SelectA5(cfg, capacity, n)
          case P310 => Ok(AllGather)
          case OtherSoc => Err(UnsupportedSoc);
      match comm
      case Ok(c) => Ok(Some(c))
      case Err(e) => Err(e)
  }

  predicate IsMc2(r: Result<Option<Comm>, Error>) { r == Ok(Some(MC2)) || r == Ok(Some(FusedMC2)) }

  // ----- the skip decision -----

  function DecodeQueryLen(cfg: Config): nat {
    match cfg.speculativeTokens
    case None => 1
    case Some(k) => 1 + k
  }

  function PotentialMaxTokens(cfg: Config): nat {
    if cfg.hasCaptureSizes then
      Max(cfg.maxCaptureSize, Min(cfg.maxBatchedTokens, cfg.maxSeqs * DecodeQueryLen(cfg)))
    else Min(cfg.maxSeqs * DecodeQueryLen(cfg), 512)
  }

  /** `potential` is the cached value of PotentialMaxTokens. */
  function ShouldSkip(cfg: Config, capacity: Option<nat>, potential: nat, draft: bool): Result<bool, Error> {
    if cfg.hierarchical then Ok(false)
    else if !(if draft then cfg.drafterMoe else cfg.moe) then Ok(true)
    else if !cfg.kvConsumer then Ok(false)
    else
      var decode, prefill := Select(cfg, capacity, potential), Select(cfg, capacity, cfg.maxBatchedTokens);
      if decode.Err? then Err(decode.error)
      else if prefill.Err? then Err(prefill.error)
      else Ok(IsMc2(decode) && (IsMc2(prefill) || cfg.recomputeScheduler))
  }

  /** The largest token count the skip decision has checked. */
  function CheckedBound(cfg: Config, capacity: Option<nat>, potential: nat): nat {
    if IsMc2(Select(cfg, capacity, cfg.maxBatchedTokens)) then Max(potential, cfg.maxBatchedTokens) else potential
  }

  /** "Needs MC2" is downward closed in the token count, with one method all the way. */
  lemma SelectBelow(cfg: Config, capacity: Option<nat>, n: nat, bound: nat)
    requires n <= bound && IsMc2(Select(cfg, capacity, bound))
    ensures Select(cfg, capacity, n) == Select(cfg, capacity, bound)
  {}

  /** A rank that skips the all-reduce and any other rank, each with its own token count
      up to the checked bound, select the same method: MC2 or its fused form. */
  lemma SkippedRanksAgree(cfg: Config, capacity: Option<nat>, potential: nat, draft: bool, m: nat, n: nat)
    requires ShouldSkip(cfg, capacity, potential, draft) == Ok(true)
    requires if draft then cfg.drafterMoe else cfg.moe
    requires m <= CheckedBound(cfg, capacity, potential) && n <= CheckedBound(cfg, capacity, potential)
    ensures cfg.kvConsumer && !cfg.hierarchical
    ensures Select(cfg, capacity, m) == Select(cfg, capacity, n) && IsMc2(Select(cfg, capacity, m))
  {
    SelectBelow(cfg, capacity, m, CheckedBound(cfg, capacity, potential));
    SelectBelow(cfg, capacity, n, CheckedBound(cfg, capacity, potential));
  }

  /** Whether the token count matters to the selection at all. */
  predicate ThresholdMatters(cfg: Config) {
    && cfg.moe && cfg.expertParallel && cfg.epSize != 1
    && match cfg.soc
       case A2 =>
         cfg.pipeline > 0
         && var ep := cfg.worldAcrossDp / cfg.pipeline;
         ep >= 16 && cfg.numExperts / ep <= 24
       case A3 => !(FusedDecode(cfg) && FusedPrefill(cfg))
       case A5 => cfg.worldAcrossDp > 1
       case _ => false
  }

  /** Both counts on the same side of the capacity, where the side matters. */
  predicate SameSide(cfg: Config, capacity: Option<nat>, m: nat, n: nat) {
    capacity.Some? && ThresholdMatters(cfg) ==> (m <= capacity.value <==> n <= capacity.value)
  }

  /** Two token counts get the same method, or fail alike, exactly when they lie on the same
      side of the capacity or the configuration does not look at them. */
  lemma SelectAlike(cfg: Config, capacity: Option<nat>, m: nat, n: nat)
    ensures Select(cfg, capacity, m) == Select(cfg, capacity, n) <==> SameSide(cfg, capacity, m, n)
  {}

  // ----- the counts a rank works with -----

  function MaxOf(counts: seq<nat>): nat {
    if counts == [] then 0 else Max(MaxOf(counts[..|counts| - 1]), counts[|counts| - 1])
  }

  lemma {:induction false} MaxOfFacts(counts: seq<nat>)
    ensures forall i :: 0 <= i < |counts| ==> counts[i] <= MaxOf(counts)
    ensures counts != [] ==> exists i :: 0 <= i < |counts| && counts[i] == MaxOf(counts)
  {
    if counts != [] {
      var front := counts[..|counts| - 1];
      MaxOfFacts(front);
      if MaxOf(front) > counts[|counts| - 1] {
        assert front != [];
        var i :| 0 <= i < |front| && front[i] == MaxOf(front);
        assert counts[i] == MaxOf(counts);
      }
    }
  }

  function Repeat(n: nat, times: nat): seq<nat> { seq(times, i => n) }

  lemma {:induction false} MaxOfRepeat(n: nat, times: nat)
    requires times > 0
    ensures MaxOf(Repeat(n, times)) == n
  {
    MaxOfFacts(Repeat(n, times));
  }

  /** The vector of counts rank `rank` ends up with; `counts[i]` are the tokens of rank i.
      A group of one rank has none. */
  function Sync(counts: seq<nat>, rank: nat, skip: bool, padding: bool): Option<seq<nat>>
    requires rank < |counts|
  {
    if |counts| == 1 then None
    else if skip then Some(Repeat(counts[rank], |counts|))
    else if padding then Some(Repeat(MaxOf(counts), |counts|))
    else Some(counts)
  }

  /** The count the rank selects its method for. */
  function Considered(counts: seq<nat>, rank: nat, skip: bool, padding: bool): nat
    requires rank < |counts|
  {
    match Sync(counts, rank, skip, padding)
    case Some(across) => MaxOf(across)
    case None => counts[rank]
  }

  lemma ConsideredFacts(counts: seq<nat>, rank: nat, skip: bool, padding: bool)
    requires rank < |counts|
    ensures Considered(counts, rank, skip, padding) == if skip then counts[rank] else MaxOf(counts)
  {
    MaxOfFacts(counts);
    if |counts| == 1 {
      var i :| 0 <= i < |counts| && counts[i] == MaxOf(counts);
    } else if skip {
      MaxOfRepeat(counts[rank], |counts|);
    } else if padding {
      MaxOfRepeat(MaxOf(counts), |counts|);
    }
  }

  /** Any two ranks of the group select the same method, or fail alike, exactly when they
      saw each other's counts or their own counts lie on the same side of the capacity.  A
      group of one rank takes no skip decision. */
  lemma RanksAgree(cfg: Config, capacity: Option<nat>, potential: nat, draft: bool, skip: bool, counts: seq<nat>,
                   i: nat, j: nat, padI: bool, padJ: bool)
    requires i < |counts| && j < |counts|
    requires |counts| == 1 || ShouldSkip(cfg, capacity, potential, draft) == Ok(skip)
    ensures Select(cfg, capacity, Considered(counts, i, skip, padI))
         == Select(cfg, capacity, Considered(counts, j, skip, padJ))
       <==> !skip || SameSide(cfg, capacity, counts[i], counts[j])
  {
    ConsideredFacts(counts, i, skip, padI);
    ConsideredFacts(counts, j, skip, padJ);
    SelectAlike(cfg, capacity, counts[i], counts[j]);
  }

  /** The skip decision puts every count it covers on one side, for an MoE pass. */
  lemma CoveredRanksAgree(cfg: Config, capacity: Option<nat>, potential: nat, draft: bool, counts: seq<nat>,
                          i: nat, j: nat, padI: bool, padJ: bool)
    requires i < |counts| && j < |counts| && ShouldSkip(cfg, capacity, potential, draft) == Ok(true)
    requires if draft then cfg.drafterMoe else cfg.moe
    requires forall k :: 0 <= k < |counts| ==> counts[k] <= CheckedBound(cfg, capacity, potential)
    ensures SameSide(cfg, capacity, counts[i], counts[j])
    ensures Select(cfg, capacity, Considered(counts, i, true, padI))
         == Select(cfg, capacity, Considered(counts, j, true, padJ))
  {
    SkippedRanksAgree(cfg, capacity, potential, draft, counts[i], counts[j]);
    RanksAgree(cfg, capacity, potential, draft, true, counts, i, j, padI, padJ);
  }

  // ----- does the checked bound cover every decode batch? -----

  /** The most tokens of a decode-only step. */
  function MaxDecodeTokens(cfg: Config): nat { Min(cfg.maxBatchedTokens, cfg.maxSeqs * DecodeQueryLen(cfg)) }

  /** What a deployment can check beforehand. */
  predicate DecodeCovered(cfg: Config, capacity: nat) {
    || cfg.hasCaptureSizes
    || MaxDecodeTokens(cfg) <= 512
    || MaxDecodeTokens(cfg) <= capacity
    || (cfg.soc == A3 && FusedPrefill(cfg))
  }

  /** When ranks skip, every decode batch is on MC2 exactly when the deployment is covered:
      without capture sizes the potential maximum stops at 512. */
  lemma DecodeCoveredExactly(cfg: Config, capacity: nat, draft: bool)
    requires ShouldSkip(cfg, Some(capacity), PotentialMaxTokens(cfg), draft) == Ok(true)
    requires if draft then cfg.drafterMoe else cfg.moe
    ensures DecodeCovered(cfg, capacity) <==>
      forall n: nat :: n <= MaxDecodeTokens(cfg) ==> IsMc2(Select(cfg, Some(capacity), n))
  {
    var most := MaxDecodeTokens(cfg);
    var some := Some(capacity);
    if DecodeCovered(cfg, capacity) {
      assert IsMc2(Select(cfg, some, most)) by {
        if most <= PotentialMaxTokens(cfg) { SelectBelow(cfg, some, most, PotentialMaxTokens(cfg)); }
      }
      forall n: nat | n <= most ensures IsMc2(Select(cfg, some, n)) { SelectBelow(cfg, some, n, most); }
    } else {
      assert !IsMc2(Select(cfg, some, most));
    }
  }

  /** So two decoding ranks that skip always select alike exactly when it is covered. */
  lemma DecodeBatchesAlikeExactly(cfg: Config, capacity: nat, draft: bool)
    requires ShouldSkip(cfg, Some(capacity), PotentialMaxTokens(cfg), draft) == Ok(true)
    requires if draft then cfg.drafterMoe else cfg.moe
    ensures DecodeCovered(cfg, capacity) <==>
      forall m: nat, n: nat :: m <= MaxDecodeTokens(cfg) && n <= MaxDecodeTokens(cfg) ==>
        Select(cfg, Some(capacity), m) == Select(cfg, Some(capacity), n)
  {
    var most, some := MaxDecodeTokens(cfg), Some(capacity);
    DecodeCoveredExactly(cfg, capacity, draft);
    SelectBelow(cfg, some, 0, PotentialMaxTokens(cfg));
    if DecodeCovered(cfg, capacity) {
      forall m: nat, n: nat | m <= most && n <= most ensures Select(cfg, some, m) == Select(cfg, some, n) {
        SelectBelow(cfg, some, m, most);
        SelectBelow(cfg, some, n, most);
      }
    } else {
      var n: nat :| n <= most && !IsMc2(Select(cfg, some, n));
      assert Select(cfg, some, 0) != Select(cfg, some, n);
    }
  }

  // ----- the MC2 capacity -----

  ghost predicate LeastMultiple(p: int, n: int, align: nat)
    requires align > 0
  {
    p % align == 0 && n <= p && forall q: nat :: q % align == 0 && n <= q ==> p <= q
  }

  lemma RoundUpIsLeast(x: nat, align: nat)
    requires align > 0
    ensures LeastMultiple(RoundUp(x, align), x, align)
  {
    var k := CeilDiv(x, align);
    CeilDivBounds(x, align);
    DivUnique(k * align, align, k, 0);
    forall q: nat | q % align == 0 && x <= q ensures k * align <= q {
      NextMultiple(k, q, align);
    }
  }

  lemma NextMultiple(k: nat, q: nat, align: nat)
    requires align > 0 && q % align == 0 && k * align < q + align
    ensures k * align <= q
  {
    var c := q / align;
    assert q == c * align && q + align == (c + 1) * align;
    MulCancel(k, c + 1, align);
    MulLe(k, c, align);
  }

  /** `tokens` is the count the capacity is meant for. */
  function Capacity(tokens: nat, tp: nat): nat
    requires tp > 0
  {
    Min(CeilDiv(tokens, tp), 512) * tp
  }

  /** The capacity is the least multiple of tp for the tokens, or 512 tokens per rank. */
  lemma CapacityFacts(tokens: nat, tp: nat)
    requires tp > 0
    ensures Capacity(tokens, tp) % tp == 0 && Capacity(tokens, tp) <= 512 * tp
    ensures if tokens <= 512 * tp then LeastMultiple(Capacity(tokens, tp), tokens, tp)
            else Capacity(tokens, tp) == 512 * tp
  {
    var k := CeilDiv(tokens, tp);
    RoundUpIsLeast(tokens, tp);
    CeilDivBounds(tokens, tp);
    DivUnique(Min(k, 512) * tp, tp, Min(k, 512), 0);
    MulLe(Min(k, 512), 512, tp);
    if tokens <= 512 * tp {
      assert k * tp < 513 * tp;
      MulCancel(k, 513, tp);
    } else {
      MulCancel(512, k, tp);
    }
  }

  /** The token count the capacity is computed from. */
  function CapacityTokens(cfg: Config, maxNumReqs: nat, queryLen: nat): nat {
    if cfg.enablePrefillMc2 then cfg.maxBatchedTokens
    else if cfg.hasCaptureSizes then cfg.maxCaptureSize
    else maxNumReqs * queryLen
  }

  /** An uncovered deployment, with the capacity the program computes for it, where two
      decoding ranks that skip the all-reduce select different methods. */
  lemma UncoveredDecodeDisagrees() returns (cfg: Config, m: nat, n: nat)
    ensures m <= MaxDecodeTokens(cfg) && n <= MaxDecodeTokens(cfg)
    ensures var capacity := Some(Capacity(CapacityTokens(cfg, cfg.maxSeqs, DecodeQueryLen(cfg)), 1));
      && ShouldSkip(cfg, capacity, PotentialMaxTokens(cfg), false) == Ok(true)
      && Select(cfg, capacity, m) == Ok(Some(MC2))
      && Select(cfg, capacity, n) == Ok(Some(AllToAll))
  {
    cfg := Config(A3, true, false, true, 16, 256, 16, 1, 8, 0, false, false,
                  false, 0, 8192, 1024, None, true, false, true, false);
    m, n := 512, 1024;
    assert PotentialMaxTokens(cfg) == 512 && MaxDecodeTokens(cfg) == 1024;
    assert Capacity(CapacityTokens(cfg, cfg.maxSeqs, DecodeQueryLen(cfg)), 1) == 512;
    assert Select(cfg, Some(512), 512) == Ok(Some(MC2));
    assert Select(cfg, Some(512), 8192) == Ok(Some(AllToAll));
    assert Select(cfg, Some(512), 1024) == Ok(Some(AllToAll));
  }

  /** A dense drafter beside an MoE main model: the draft pass skips, and two ranks of the
      group select different methods for it. */
  lemma DenseDrafterDisagrees() returns (cfg: Config, counts: seq<nat>)
    ensures cfg.moe && !cfg.drafterMoe && |counts| == 2
    ensures var capacity := Some(Capacity(CapacityTokens(cfg, cfg.maxSeqs, DecodeQueryLen(cfg)), 1));
      && ShouldSkip(cfg, capacity, PotentialMaxTokens(cfg), true) == Ok(true)
      && Select(cfg, capacity, Considered(counts, 0, true, false)) == Ok(Some(MC2))
      && Select(cfg, capacity, Considered(counts, 1, true, false)) == Ok(Some(AllToAll))
  {
    cfg := Config(A3, true, false, true, 16, 256, 16, 1, 8, 0, false, false,
                  true, 512, 8192, 256, Some(1), true, false, false, false);
    counts := [1, 4096];
    ConsideredFacts(counts, 0, true, false);
    ConsideredFacts(counts, 1, true, false);
    assert Capacity(CapacityTokens(cfg, cfg.maxSeqs, DecodeQueryLen(cfg)), 1) == 512;
    assert Select(cfg, Some(512), 1) == Ok(Some(MC2));
    assert Select(cfg, Some(512), 4096) == Ok(Some(AllToAll));
  }
}
