/** The forward context: padding, and the MC2 mask kept in one shared buffer. */
module MoeContext {
  import opened Common
  import opened MoeSelect
  import opened MoeLaws

  /** The arguments of one forward pass. */
  datatype Request = Request(
    numTokens: nat,
    acrossDp: Option<seq<nat>>,   // num_tokens_across_dp
    dpMetadata: Option<seq<nat>>, // the counts in forward_context.dp_metadata
    numActual: Option<nat>,
    flashComm: bool)              // flash_comm_v1 or flashcomm_v2 enabled

  function SelectedFor(r: Request): nat {
    match r.acrossDp
    case Some(counts) => MaxOf(counts)
    case None => r.numTokens
  }

  function MaxAcrossDp(r: Request, dpSize: nat): nat {
    if dpSize > 1 && r.dpMetadata.Some? then MaxOf(r.dpMetadata.value) else r.numTokens
  }

  function Actual(r: Request): nat {
    match r.numActual
    case Some(n) => n
    case None => r.numTokens
  }

  /** The fields the context manager fills. */
  class Context {
    var comm: Option<Comm>
    var padSize: int
    var paddedLength: Option<nat>
    var maxTokensAcrossDp: nat
    var paddedNumTokens: nat
    var mask: Option<nat> // the length of the view on the shared buffer

    constructor () {}
  }

  /** The count a rank works with: the largest of the group's, or its own if it has only that. */
  ghost predicate LargestOf(n: nat, own: nat, counts: Option<seq<nat>>) {
    match counts
    case None => n == own
    case Some(all) => (forall k :: k in all ==> k <= n) && (n in all || (all == [] && n == 0))
  }

  lemma LargestIs(counts: seq<nat>, own: nat)
    ensures LargestOf(MaxOf(counts), own, Some(counts))
  {
    MaxOfFacts(counts);
  }

  lemma LargestSelected(r: Request)
    ensures LargestOf(SelectedFor(r), r.numTokens, r.acrossDp)
  {
    if r.acrossDp.Some? { LargestIs(r.acrossDp.value, r.numTokens); }
  }

  lemma LargestPadded(r: Request, dpSize: nat)
    ensures LargestOf(MaxAcrossDp(r, dpSize), r.numTokens, if dpSize > 1 then r.dpMetadata else None)
  {
    if dpSize > 1 && r.dpMetadata.Some? { LargestIs(r.dpMetadata.value, r.numTokens); }
  }

  /** The method of a pass is that of the largest count it was told. */
  ghost predicate MethodFor(cfg: Config, capacity: Option<nat>, r: Request, comm: Comm) {
    exists n :: LargestOf(n, r.numTokens, r.acrossDp) && Uses(cfg, capacity, n, comm)
  }

  /** Where the visible part of the buffer ends. */
  function ViewLength(length: nat, padded: nat): nat { Min(padded, length) }

  /** The buffer after a request wrote its mask. */
  function Written(buffer: seq<bool>, padded: nat, actual: nat): (after: seq<bool>)
    ensures |after| == |buffer|
  {
    seq(|buffer|, i requires 0 <= i < |buffer| => if i < ViewLength(|buffer|, padded) then i < actual else buffer[i])
  }

  /** What one rank adds to its own token count. */
  function PadSize(n: nat, tp: nat): int
    requires tp > 0
  {
    (tp - n % tp) % tp
  }

  /** The first `view` bits are exactly the mask of `actual` tokens. */
  predicate Shows(bits: seq<bool>, view: nat, actual: nat) {
    view <= |bits| && forall i :: 0 <= i < view ==> (bits[i] <==> i < actual)
  }

  /** The process-wide state: the capacity and the buffer are set once. */
  class Runtime {
    const tp: nat
    const dpSize: nat
    var capacity: Option<nat>
    var potentialMaxTokens: Option<nat>
    var reservedMask: array?<bool>

    ghost predicate Valid()
      reads this
    {
      tp > 0
    }

    constructor (tp: nat, dpSize: nat)
      requires tp > 0
      ensures Valid() && this.tp == tp && this.dpSize == dpSize
      ensures capacity == None && potentialMaxTokens == None && reservedMask == null
    {
      this.tp, this.dpSize := tp, dpSize;
      capacity, potentialMaxTokens, reservedMask := None, None, null;
    }

    method SetCapacity(cfg: Config, maxNumReqs: nat, queryLen: nat)
      requires Valid()
      modifies this`capacity
      ensures capacity == (if old(capacity).Some? then old(capacity)
                           else Some(Capacity(CapacityTokens(cfg, maxNumReqs, queryLen), tp)))
    {
      if capacity.Some? { return; }
      var tokens;
      if cfg.enablePrefillMc2 { tokens := cfg.maxBatchedTokens; }
      else if cfg.hasCaptureSizes { tokens := cfg.maxCaptureSize; }
      else { tokens := maxNumReqs * queryLen; }
      var perRank := CeilDiv(tokens, tp);
      perRank := Min(perRank, 512);
      capacity := Some(perRank * tp);
    }

    method SetPotentialMaxTokens(cfg: Config)
      modifies this`potentialMaxTokens
      ensures potentialMaxTokens == (if old(potentialMaxTokens).Some? then old(potentialMaxTokens)
                                     else Some(PotentialMaxTokens(cfg)))
    {
      if potentialMaxTokens.Some? { return; }
      potentialMaxTokens := Some(PotentialMaxTokens(cfg));
    }

    method SetMask(cfg: Config)
      modifies this`reservedMask
      ensures old(reservedMask) != null ==> reservedMask == old(reservedMask)
      ensures old(reservedMask) == null && cfg.moe ==>
        reservedMask != null && fresh(reservedMask) && reservedMask.Length == cfg.maxBatchedTokens
        && forall i :: 0 <= i < reservedMask.Length ==> !reservedMask[i]
      ensures old(reservedMask) == null && !cfg.moe ==> reservedMask == null
    {
      if reservedMask != null { return; }
      if cfg.moe { reservedMask := new bool[cfg.maxBatchedTokens](i => false); }
    }

    /** The padding of one pass: the token count grows to the least multiple of tp that
        holds the largest count of the group. */
    method Pad(ctx: Context, r: Request)
      requires Valid()
      modifies ctx`padSize, ctx`paddedLength, ctx`maxTokensAcrossDp, ctx`paddedNumTokens
      ensures ctx.maxTokensAcrossDp == MaxAcrossDp(r, dpSize)
      ensures LeastMultiple(ctx.paddedNumTokens, ctx.maxTokensAcrossDp, tp)
      ensures if r.flashComm then r.numTokens + ctx.padSize == ctx.paddedNumTokens else ctx.padSize == 0
      ensures ctx.paddedLength == (if r.flashComm && dpSize > 1 && r.dpMetadata.Some? then Some(ctx.paddedNumTokens)
                                   else old(ctx.paddedLength))
    {
      RoundUpIsLeast(MaxAcrossDp(r, dpSize), tp);
      PadToMultiple(r.numTokens, tp);
      ctx.padSize := 0;
      if r.flashComm {
        ctx.padSize := PadSize(r.numTokens, tp);
      }
      if dpSize > 1 && r.dpMetadata.Some? {
        ctx.maxTokensAcrossDp := MaxOf(r.dpMetadata.value);
        if r.flashComm {
          var paddedLength := CeilDiv(ctx.maxTokensAcrossDp, tp) * tp;
          ctx.padSize := paddedLength - r.numTokens;
          ctx.paddedLength := Some(paddedLength);
        }
      } else {
        ctx.maxTokensAcrossDp := r.numTokens;
      }
      ctx.paddedNumTokens := CeilDiv(ctx.maxTokensAcrossDp, tp) * tp;
    }

    /** Writes the mask into the front of the shared buffer and shows that part. */
    method WriteMask(buffer: array<bool>, padded: nat, actual: nat) returns (view: nat)
      modifies buffer
      ensures view == ViewLength(buffer.Length, padded)
      ensures buffer[..] == Written(old(buffer[..]), padded, actual)
      ensures Shows(buffer[..], view, actual)
    {
      view := ViewLength(buffer.Length, padded);
      var split := Min(actual, view);
      forall i | 0 <= i < split { buffer[i] := true; }
      forall i | split <= i < view { buffer[i] := false; }
    }

    /** One pass.  With an error nothing is written. */
    method Enter(cfg: Config, r: Request) returns (ctx: Context, error: Option<Error>)
      requires Valid()
      modifies if reservedMask != null then {reservedMask} else {}
      ensures fresh(ctx) && reservedMask == old(reservedMask)
      ensures error.None? ==> Select(cfg, capacity, SelectedFor(r)) == Ok(ctx.comm)
      ensures error.Some? ==> Select(cfg, capacity, SelectedFor(r)) == Err(error.value)
      ensures error.None? ==> if ctx.comm.None? then !cfg.moe else MethodFor(cfg, capacity, r, ctx.comm.value)
      ensures error.Some? ==> Fails(cfg, capacity, error.value)
      ensures error.Some? && reservedMask != null ==> reservedMask[..] == old(reservedMask[..])
      ensures error.None? ==> LeastMultiple(ctx.paddedNumTokens, MaxAcrossDp(r, dpSize), tp)
      ensures error.None? ==> if r.flashComm then r.numTokens + ctx.padSize == ctx.paddedNumTokens else ctx.padSize == 0
      ensures error.None? && reservedMask == null ==> ctx.mask == None
      ensures error.None? ==> LargestOf(ctx.maxTokensAcrossDp, r.numTokens, if dpSize > 1 then r.dpMetadata else None)
      ensures error.None? && reservedMask != null ==>
        && ctx.mask == Some(if ctx.paddedNumTokens < reservedMask.Length then ctx.paddedNumTokens else reservedMask.Length)
        && reservedMask[..] == Written(old(reservedMask[..]), ctx.paddedNumTokens, Actual(r))
        && Shows(reservedMask[..], ctx.mask.value, Actual(r))
        && Shows(reservedMask[..], ctx.mask.value, if r.numActual.Some? then r.numActual.value else r.numTokens)
    {
      ctx := new Context();
      MethodExactly(cfg, capacity, SelectedFor(r));
      LargestSelected(r);
      LargestPadded(r, dpSize);
      hide Uses, Fails, LargestOf;
      var comm := Select(cfg, capacity, SelectedFor(r));
      if comm.Err? { return ctx, Some(comm.error); }
      ctx.comm := comm.value;
      Pad(ctx, r);
      ctx.mask := None;
      if reservedMask != null {
        var view := WriteMask(reservedMask, ctx.paddedNumTokens, Actual(r));
        ctx.mask := Some(view);
      }
      error := None;
    }
  }

  lemma PadToMultiple(n: nat, tp: nat)
    requires tp > 0
    ensures n + PadSize(n, tp) == RoundUp(n, tp)
  {
    var q, r := n / tp, n % tp;
    assert n == q * tp + r;
    if r == 0 {
      DivUnique(n + tp - 1, tp, q, tp - 1);
      DivUnique(tp, tp, 1, 0);
    } else {
      DivUnique(n + tp - 1, tp, q + 1, r - 1);
      DivUnique(tp - r, tp, 0, tp - r);
    }
  }

  /** The ranks of a group that saw each other's counts pad to the same length. */
  lemma PaddedAlike(counts: seq<nat>, i: nat, j: nat, padI: bool, padJ: bool, r: Request, s: Request,
                    tp: nat, p: int, q: int)
    requires i < |counts| && j < |counts| && |counts| > 1 && tp > 0
    requires r.dpMetadata == Sync(counts, i, false, padI) && s.dpMetadata == Sync(counts, j, false, padJ)
    requires LeastMultiple(p, MaxAcrossDp(r, |counts|), tp) && LeastMultiple(q, MaxAcrossDp(s, |counts|), tp)
    ensures p == q && counts[i] <= p && counts[j] <= p
    ensures r.dpMetadata.value[i] <= p && s.dpMetadata.value[j] <= p
  {
    ConsideredFacts(counts, i, false, padI);
    ConsideredFacts(counts, j, false, padJ);
    MaxOfFacts(counts);
  }

  // ----- the shared buffer over a whole history -----

  /** Padded and actual token count of one pass. */
  datatype Pass = Pass(padded: nat, actual: nat)

  function After(buffer: seq<bool>, history: seq<Pass>): (after: seq<bool>)
    ensures |after| == |buffer|
  {
    if history == [] then buffer
    else
      var last := history[|history| - 1];
      Written(After(buffer, history[..|history| - 1]), last.padded, last.actual)
  }

  /** Bit `i` belongs to pass `k`: the last one whose view reaches it. */
  ghost predicate LastToWrite(length: nat, history: seq<Pass>, i: nat, k: nat) {
    && k < |history| && i < ViewLength(length, history[k].padded)
    && forall j :: k < j < |history| ==> i >= ViewLength(length, history[j].padded)
  }

  lemma OnePass(buffer: seq<bool>, history: seq<Pass>, i: nat)
    requires i < |buffer| && history != []
    ensures var front, last := history[..|history| - 1], history[|history| - 1];
      After(buffer, history)[i] ==
      if i < ViewLength(|buffer|, last.padded) then i < last.actual else After(buffer, front)[i]
  {}

  lemma LastBefore(length: nat, history: seq<Pass>, i: nat, k: nat)
    requires LastToWrite(length, history, i, k) && k < |history| - 1
    ensures LastToWrite(length, history[..|history| - 1], i, k)
    ensures i >= ViewLength(length, history[|history| - 1].padded)
  {}

  lemma {:induction false} BitOf(buffer: seq<bool>, history: seq<Pass>, i: nat, k: nat)
    requires i < |buffer| && LastToWrite(|buffer|, history, i, k)
    ensures After(buffer, history)[i] == (i < history[k].actual)
  {
    hide After, Written, ViewLength;
    OnePass(buffer, history, i);
    if k < |history| - 1 {
      LastBefore(|buffer|, history, i, k);
      BitOf(buffer, history[..|history| - 1], i, k);
    }
  }

  lemma {:induction false} BitUntouched(buffer: seq<bool>, history: seq<Pass>, i: nat)
    requires i < |buffer| && forall k :: 0 <= k < |history| ==> i >= ViewLength(|buffer|, history[k].padded)
    ensures After(buffer, history)[i] == buffer[i]
  {
    if history != [] {
      OnePass(buffer, history, i);
      BitUntouched(buffer, history[..|history| - 1], i);
    }
  }

  /** After any history each bit is that of the last pass whose view reaches it. */
  lemma BitAfter(buffer: seq<bool>, history: seq<Pass>, i: nat)
    requires i < |buffer|
    ensures forall k: nat :: LastToWrite(|buffer|, history, i, k) ==> After(buffer, history)[i] == (i < history[k].actual)
    ensures (forall k :: 0 <= k < |history| ==> i >= ViewLength(|buffer|, history[k].padded)) ==>
      After(buffer, history)[i] == buffer[i]
  {
    hide After, LastToWrite, ViewLength;
    forall k: nat | LastToWrite(|buffer|, history, i, k)
      ensures k < |history| && After(buffer, history)[i] == (i < history[k].actual)
    {
      InHistory(|buffer|, history, i, k);
      BitOf(buffer, history, i, k);
    }
    if forall k :: 0 <= k < |history| ==> i >= ViewLength(|buffer|, history[k].padded) {
      BitUntouched(buffer, history, i);
    }
  }

  lemma InHistory(length: nat, history: seq<Pass>, i: nat, k: nat)
    requires LastToWrite(length, history, i, k)
    ensures k < |history|
  {}

  /** The current mask shows no stale bit, whatever ran before. */
  lemma CurrentMaskRight(buffer: seq<bool>, history: seq<Pass>, now: Pass)
    ensures Shows(After(buffer, history + [now]), ViewLength(|buffer|, now.padded), now.actual)
  {}

  /** The view of an earlier pass is overwritten by the next one; it is still right exactly
      when the two masks agree on the part they share. */
  lemma OuterMaskSurvives(buffer: seq<bool>, history: seq<Pass>, outer: Pass, inner: Pass)
    ensures var view := ViewLength(|buffer|, outer.padded);
      var shared := Min(view, ViewLength(|buffer|, inner.padded));
      Shows(After(buffer, history + [outer, inner]), view, outer.actual) <==>
        Min(outer.actual, shared) == Min(inner.actual, shared)
  {
    var whole := history + [outer, inner];
    var view := ViewLength(|buffer|, outer.padded);
    var shared := Min(view, ViewLength(|buffer|, inner.padded));
    var bits := After(buffer, whole);
    forall i | 0 <= i < view
      ensures bits[i] == (i < if i < shared then inner.actual else outer.actual)
    {
      assert LastToWrite(|buffer|, whole, i, if i < shared then |history| + 1 else |history|);
      BitAfter(buffer, whole, i);
    }
    SameMask(bits, view, shared, outer.actual, inner.actual);
  }

  lemma SameMask(bits: seq<bool>, view: nat, shared: nat, outer: nat, inner: nat)
    requires shared <= view <= |bits|
    requires forall i :: 0 <= i < view ==> bits[i] == (i < if i < shared then inner else outer)
    ensures Shows(bits, view, outer) <==> Min(outer, shared) == Min(inner, shared)
  {
    var a, b := Min(outer, shared), Min(inner, shared);
    if a != b {
      var i := Min(a, b);
      assert bits[i] != (i < outer);
    }
  }
}
