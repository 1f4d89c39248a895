/** Which communication method is used when, and when the all-reduce is skipped, in terms of the
    deployment: device, parallel sizes, capacity and token count. */
module MoeLaws {
  import opened Common
  import opened MoeSelect

  // ----- the deployment -----

  /** Experts are spread over more than one rank. */
  predicate Spread(c: Config) { c.moe && c.expertParallel && c.epSize != 1 }

  /** Atlas A2: at least 16 ranks in a pipeline stage, with at most 24 experts each. */
  predicate ManyRanks(c: Config) {
    && c.pipeline > 0 && c.worldAcrossDp >= 16 * c.pipeline
    && c.numExperts < 25 * (c.worldAcrossDp / c.pipeline)
  }

  /** The fused operator serves batches within the capacity. */
  predicate FusedWithin(c: Config) {
    || (c.enableFusedMc2 == 1 && c.epSize <= 32)
    || (c.enableFusedMc2 == 2 && c.gmmCombineDecode && c.w8a8Dynamic)
    || c.enableFusedMc2 !in {0, 1, 2}
  }

  /** The fused operator serves batches above the capacity. */
  predicate FusedAbove(c: Config) {
    (c.enableFusedMc2 == 1 && c.epSize <= 32) || c.enableFusedMc2 !in {0, 1, 2}
  }

  predicate Within(capacity: Option<nat>, n: nat) { capacity.Some? && n <= capacity.value }

  predicate Above(capacity: Option<nat>, n: nat) { capacity.Some? && n > capacity.value }

  predicate UsesMc2(c: Config, capacity: Option<nat>, n: nat) {
    && Spread(c) && Within(capacity, n)
    && ((c.soc == A2 && ManyRanks(c)) || (c.soc == A3 && !FusedWithin(c)) || (c.soc == A5 && c.worldAcrossDp > 1))
  }

  predicate UsesFusedMc2(c: Config, capacity: Option<nat>, n: nat) {
    && Spread(c) && c.soc == A3
    && ((Within(capacity, n) && FusedWithin(c)) || (Above(capacity, n) && FusedAbove(c)))
  }

  predicate UsesAllToAll(c: Config, capacity: Option<nat>, n: nat) {
    && Spread(c)
    && ((c.soc == A3 && Above(capacity, n) && !FusedAbove(c))
        || (c.soc == A5 && capacity.Some? && (Above(capacity, n) || c.worldAcrossDp <= 1)
            && c.worldAcrossDp > c.expertsPerToken))
  }

  predicate UsesAllGather(c: Config, capacity: Option<nat>, n: nat) {
    || (c.moe && (!c.expertParallel || c.epSize == 1))
    || (Spread(c) && c.soc == P310)
    || (Spread(c) && c.soc == A2 && c.pipeline > 0 && c.worldAcrossDp >= c.pipeline
        && (!ManyRanks(c) || Above(capacity, n)))
    || (Spread(c) && c.soc == A5 && capacity.Some? && (Above(capacity, n) || c.worldAcrossDp <= 1)
        && c.worldAcrossDp <= c.expertsPerToken)
  }

  /** The method for `n` tokens, of a model with experts. */
  predicate Uses(c: Config, capacity: Option<nat>, n: nat, comm: Comm) {
    match comm
    case AllGather => UsesAllGather(c, capacity, n)
    case AllToAll => UsesAllToAll(c, capacity, n)
    case MC2 => UsesMc2(c, capacity, n)
    case FusedMC2 => UsesFusedMc2(c, capacity, n)
  }

  predicate Fails(c: Config, capacity: Option<nat>, error: Error) {
    match error
    case UnsupportedSoc => Spread(c) && c.soc == OtherSoc
    case DivisionByZero => Spread(c) && c.soc == A2 && (c.pipeline == 0 || c.worldAcrossDp < c.pipeline)
    case NoCapacity => Spread(c) && capacity.None? && ((c.soc == A2 && ManyRanks(c)) || c.soc == A3 || c.soc == A5)
  }

  // ----- A2: dividing the ranks and the experts -----

  lemma Stage(world: nat, pipeline: nat)
    requires pipeline > 0
    ensures world / pipeline == 0 <==> world < pipeline
    ensures world / pipeline >= 16 <==> world >= 16 * pipeline
  {
    var ep := world / pipeline;
    assert world == ep * pipeline + world % pipeline;
    if ep >= 16 { MulLe(16, ep, pipeline); }
    if ep < 16 { MulLe(ep + 1, 16, pipeline); }
    if ep >= 1 { MulLe(1, ep, pipeline); }
  }

  lemma PerRank(experts: nat, ep: nat)
    requires ep > 0
    ensures experts / ep <= 24 <==> experts < 25 * ep
  {
    var q := experts / ep;
    assert experts == q * ep + experts % ep;
    if q <= 24 { MulLe(q + 1, 25, ep); } else { MulLe(25, q, ep); }
  }

  lemma A2Exactly(c: Config, capacity: Option<nat>, n: nat)
    requires Spread(c) && c.soc == A2
    ensures forall comm :: SelectA2(c, capacity, n) == Ok(comm) <==> Uses(c, capacity, n, comm)
    ensures forall error :: SelectA2(c, capacity, n) == Err(error) <==> Fails(c, capacity, error)
  {
    if c.pipeline > 0 {
      Stage(c.worldAcrossDp, c.pipeline);
      if c.worldAcrossDp >= c.pipeline { PerRank(c.numExperts, c.worldAcrossDp / c.pipeline); }
    }
  }

  /** Each method and each error, exactly when. */
  lemma MethodExactly(c: Config, capacity: Option<nat>, n: nat)
    ensures Select(c, capacity, n) == Ok(None) <==> !c.moe
    ensures forall comm :: Select(c, capacity, n) == Ok(Some(comm)) <==> Uses(c, capacity, n, comm)
    ensures forall error :: Select(c, capacity, n) == Err(error) <==> Fails(c, capacity, error)
  {
    if Spread(c) && c.soc == A2 { A2Exactly(c, capacity, n); }
  }

  // ----- skipping the all-reduce -----

  predicate Mc2Needed(c: Config, capacity: Option<nat>, n: nat) {
    UsesMc2(c, capacity, n) || UsesFusedMc2(c, capacity, n)
  }

  /** The all-reduce of a pass is skipped: its model has no experts, or a KV consumer stays on MC2
      for decoding, and for prefilling too unless prefills are recomputed elsewhere. */
  predicate Skips(c: Config, capacity: Option<nat>, decodeTokens: nat, draft: bool) {
    && !c.hierarchical
    && (!(if draft then c.drafterMoe else c.moe)
        || (c.kvConsumer && Mc2Needed(c, capacity, decodeTokens)
            && (Mc2Needed(c, capacity, c.maxBatchedTokens) || c.recomputeScheduler)))
  }

  lemma SkipExactly(c: Config, capacity: Option<nat>, decodeTokens: nat, draft: bool)
    ensures ShouldSkip(c, capacity, decodeTokens, draft) == Ok(true) ==> Skips(c, capacity, decodeTokens, draft)
    ensures ShouldSkip(c, capacity, decodeTokens, draft) == Ok(false) ==> !Skips(c, capacity, decodeTokens, draft)
    ensures ShouldSkip(c, capacity, decodeTokens, draft).Err? <==>
      !c.hierarchical && (if draft then c.drafterMoe else c.moe) && c.kvConsumer
      && exists error :: Fails(c, capacity, error)
  {
    Mc2NeededExactly(c, capacity, decodeTokens);
    Mc2NeededExactly(c, capacity, c.maxBatchedTokens);
    hide Fails, Mc2Needed, Select;
  }

  lemma Mc2NeededExactly(c: Config, capacity: Option<nat>, n: nat)
    ensures IsMc2(Select(c, capacity, n)) <==> Mc2Needed(c, capacity, n)
    ensures Select(c, capacity, n).Err? <==> exists error :: Fails(c, capacity, error)
  {
    MethodExactly(c, capacity, n);
    hide Select, UsesMc2, UsesFusedMc2, Fails;
    assert Uses(c, capacity, n, MC2) == UsesMc2(c, capacity, n);
    assert Uses(c, capacity, n, FusedMC2) == UsesFusedMc2(c, capacity, n);
  }

  // ----- the token counts of the configuration -----

  /** The most tokens of a step in which every sequence decodes. */
  predicate DecodeTokens(c: Config, tokens: nat) {
    tokens == c.maxSeqs * (1 + (if c.speculativeTokens.Some? then c.speculativeTokens.value else 0))
  }

  lemma PotentialExactly(c: Config, tokens: nat)
    requires DecodeTokens(c, tokens)
    ensures var p := PotentialMaxTokens(c);
      if c.hasCaptureSizes then
        && p >= c.maxCaptureSize && (p >= tokens || p >= c.maxBatchedTokens)
        && (p == c.maxCaptureSize || (p == tokens && tokens <= c.maxBatchedTokens)
            || (p == c.maxBatchedTokens && c.maxBatchedTokens <= tokens))
      else p <= 512 && p <= tokens && (p == 512 || p == tokens)
  {}

  /** What the capacity must hold. */
  predicate HeldByMc2(c: Config, reqs: nat, queryLen: nat, tokens: nat) {
    && (c.enablePrefillMc2 ==> tokens == c.maxBatchedTokens)
    && (!c.enablePrefillMc2 && c.hasCaptureSizes ==> tokens == c.maxCaptureSize)
    && (!c.enablePrefillMc2 && !c.hasCaptureSizes ==> tokens == reqs * queryLen)
  }

  /** The capacity holds those tokens in the least multiple of tp, up to 512 for each rank. */
  lemma CapacityExactly(c: Config, reqs: nat, queryLen: nat, tp: nat, tokens: nat)
    requires tp > 0 && HeldByMc2(c, reqs, queryLen, tokens)
    ensures var capacity := Capacity(CapacityTokens(c, reqs, queryLen), tp);
      if tokens <= 512 * tp then LeastMultiple(capacity, tokens, tp) else capacity == 512 * tp
  {
    CapacityFacts(tokens, tp);
  }
}
