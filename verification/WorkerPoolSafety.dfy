/** What every step of the offline run keeps, and what a finished run guarantees. */
module WorkerPoolSafety {
  import opened WorkerPool

  // ----- counting workers and queue entries -----

  datatype Kind = Waiting | Generation | Writing | Left | Broken | Stopped

  function KindOf(w: Worker): Kind {
    match w
    case Generating(_) => Generation
    case Moving(_) | Validating(_) => Writing
    case Exited => Left
    case Failed => Broken
    case Cancelled => Stopped
    case _ => Waiting
  }

  function Count(ws: seq<Worker>, k: Kind): nat {
    if ws == [] then 0 else (if KindOf(ws[0]) == k then 1 else 0) + Count(ws[1..], k)
  }

  lemma {:induction false} CountUpdate(ws: seq<Worker>, i: nat, w: Worker, k: Kind)
    requires i < |ws|
    ensures Count(ws[i := w], k) + (if KindOf(ws[i]) == k then 1 else 0)
         == Count(ws, k) + (if KindOf(w) == k then 1 else 0)
  {
    if i == 0 {
      assert ws[i := w][1..] == ws[1..];
    } else {
      assert ws[i := w][1..] == ws[1..][i - 1 := w];
      CountUpdate(ws[1..], i - 1, w, k);
    }
  }

  lemma {:induction false} CountBounds(ws: seq<Worker>, k: Kind)
    ensures Count(ws, k) <= |ws|
    ensures Count(ws, k) > 0 <==> exists i :: 0 <= i < |ws| && KindOf(ws[i]) == k
    ensures Count(ws, k) == |ws| <==> forall i :: 0 <= i < |ws| ==> KindOf(ws[i]) == k
  {
    if ws != [] {
      CountBounds(ws[1..], k);
      assert forall i :: 1 <= i < |ws| ==> ws[i] == ws[1..][i - 1];
      assert forall i :: 0 <= i < |ws| - 1 ==> ws[1..][i] == ws[i + 1];
    }
  }

  /** How often worker `w` holds sample `x`: never or once. */
  function HeldBy(w: Worker, x: nat): nat { if Holds(w) && w.idx == x then 1 else 0 }

  function Held(ws: seq<Worker>, x: nat): nat {
    if ws == [] then 0 else HeldBy(ws[0], x) + Held(ws[1..], x)
  }

  function Holding(ws: seq<Worker>): nat {
    if ws == [] then 0 else (if Holds(ws[0]) then 1 else 0) + Holding(ws[1..])
  }

  lemma {:induction false} HeldUpdate(ws: seq<Worker>, i: nat, w: Worker, x: nat)
    requires i < |ws|
    ensures Held(ws[i := w], x) + HeldBy(ws[i], x) == Held(ws, x) + HeldBy(w, x)
  {
    if i == 0 {
      assert ws[i := w][1..] == ws[1..];
    } else {
      assert ws[i := w][1..] == ws[1..][i - 1 := w];
      HeldUpdate(ws[1..], i - 1, w, x);
    }
  }

  lemma {:induction false} HoldingUpdate(ws: seq<Worker>, i: nat, w: Worker)
    requires i < |ws|
    ensures Holding(ws[i := w]) + (if Holds(ws[i]) then 1 else 0) == Holding(ws) + (if Holds(w) then 1 else 0)
  {
    if i == 0 {
      assert ws[i := w][1..] == ws[1..];
    } else {
      assert ws[i := w][1..] == ws[1..][i - 1 := w];
      HoldingUpdate(ws[1..], i - 1, w);
    }
  }

  lemma {:induction false} NothingHeld(ws: seq<Worker>, x: nat)
    requires forall i :: 0 <= i < |ws| ==> !Holds(ws[i])
    ensures Held(ws, x) == 0 && Holding(ws) == 0
  {
    if ws != [] { NothingHeld(ws[1..], x); }
  }

  function Queued(q: seq<Item>, x: nat): nat {
    if q == [] then 0 else (if q[0] == Sample(x) then 1 else 0) + Queued(q[1..], x)
  }

  function Sentinels(q: seq<Item>): nat {
    if q == [] then 0 else (if q[0].Sentinel? then 1 else 0) + Sentinels(q[1..])
  }

  /** No sample waits behind a sentinel. */
  predicate SamplesFirst(q: seq<Item>) {
    q == [] || if q[0].Sentinel? then Sentinels(q) == |q| else SamplesFirst(q[1..])
  }

  lemma {:induction false} QueueAppend(q: seq<Item>, y: Item, x: nat)
    ensures Queued(q + [y], x) == Queued(q, x) + (if y == Sample(x) then 1 else 0)
    ensures Sentinels(q + [y]) == Sentinels(q) + (if y.Sentinel? then 1 else 0)
    ensures SamplesFirst(q) && (y.Sentinel? || Sentinels(q) == 0) ==> SamplesFirst(q + [y])
  {
    if q == [] {
      assert q + [y] == [y];
    } else {
      assert (q + [y])[1..] == q[1..] + [y];
      QueueAppend(q[1..], y, x);
    }
  }

  lemma {:induction false} QueueKinds(q: seq<Item>, x: nat)
    ensures Sentinels(q) <= |q|
    ensures Sentinels(q) == |q| ==> Queued(q, x) == 0
    ensures Sentinels(q) == |q| ==> SamplesFirst(q)
  {
    if q != [] { QueueKinds(q[1..], x); }
  }

  // ----- the failure history -----

  /** Length of the trailing run of failures. */
  function TrailingFailures(outcomes: seq<bool>): nat {
    if outcomes == [] || outcomes[|outcomes| - 1] then 0
    else 1 + TrailingFailures(outcomes[..|outcomes| - 1])
  }

  /** The failure at position k - 1 completes a run of at least `threshold`. */
  predicate TripsAt(outcomes: seq<bool>, k: nat, threshold: int)
    requires 0 < k <= |outcomes|
  {
    !outcomes[k - 1] && TrailingFailures(outcomes[..k]) >= threshold
  }

  /** Some failure completed a trailing run of at least `threshold`. */
  predicate Tripped(outcomes: seq<bool>, threshold: int) {
    exists k: nat :: 0 < k <= |outcomes| && TripsAt(outcomes, k, threshold)
  }

  lemma TripsAtAppend(outcomes: seq<bool>, ok: bool, threshold: int, k: nat)
    requires 0 < k <= |outcomes|
    ensures TripsAt(outcomes + [ok], k, threshold) == TripsAt(outcomes, k, threshold)
  {
    assert (outcomes + [ok])[..k] == outcomes[..k];
  }

  lemma TripsLast(outcomes: seq<bool>, ok: bool, threshold: int)
    ensures TripsAt(outcomes + [ok], |outcomes| + 1, threshold) <==> !ok && TrailingFailures(outcomes) + 1 >= threshold
  {
    var longer := outcomes + [ok];
    assert longer[..|outcomes| + 1] == longer && longer[..|outcomes|] == outcomes;
  }

  lemma TrippedAppend(outcomes: seq<bool>, ok: bool, threshold: int)
    ensures Tripped(outcomes + [ok], threshold)
       <==> Tripped(outcomes, threshold) || (!ok && TrailingFailures(outcomes) + 1 >= threshold)
  {
    TripsLast(outcomes, ok, threshold);
    forall k: nat | 0 < k <= |outcomes|
      ensures TripsAt(outcomes + [ok], k, threshold) == TripsAt(outcomes, k, threshold)
    {
      TripsAtAppend(outcomes, ok, threshold, k);
    }
  }

  // ----- the invariant -----

  predicate Shape(c: Config, s: State) {
    && |s.workers| == 2 * c.concurrency
    && s.next <= |c.toProcess|
    && (c.concurrency > 0 ==> |s.queue| <= 4 * c.concurrency)
  }

  /** The number of places in which sample `x` is, once it has been fed. */
  function Places(s: State, x: nat): nat {
    Queued(s.queue, x) + Held(s.workers, x) + multiset(s.completed)[x] + multiset(s.skipped)[x]
    + multiset(s.drained)[x] + multiset(s.dropped)[x]
  }

  /** Every sample fed so far is in as many places as it was fed times. */
  ghost predicate Conserved(c: Config, s: State) {
    && s.next <= |c.toProcess|
    && (forall x :: multiset(c.toProcess[..s.next])[x] == Places(s, x))
    && s.unfinished == |s.queue| + Holding(s.workers)
  }

  predicate PermitsCounted(c: Config, s: State) {
    && s.vllmFree >= 0 && s.vllmFree + Count(s.workers, Generation) == c.concurrency
    && s.writeFree >= 0 && s.writeFree + Count(s.workers, Writing) == c.concurrency
  }

  predicate SentinelsCounted(c: Config, s: State) {
    && s.sentinelsPut <= |s.workers|
    && s.sentinelsPut == Sentinels(s.queue) + Count(s.workers, Left)
    && SamplesFirst(s.queue)
    && (Count(s.workers, Left) > 0 ==> Sentinels(s.queue) == |s.queue|)
    && (s.main.Feeding? || s.main.FeedAsleep? || s.main.Testing? || s.cancelRequested ==> s.sentinelsPut == 0)
    && (s.sentinelsPut > 0 ==> s.next == |c.toProcess|)
  }

  predicate PhasesAgree(c: Config, s: State) {
    && (s.main.FeedAsleep? ==> s.next < |c.toProcess|)
    && (s.main.SentinelAsleep? ==> s.sentinelsPut < |s.workers|)
    && (s.main.Testing? && !s.cancelSet ==> s.next == |c.toProcess|)
    && (s.main.PutSentinels? || s.main.SentinelAsleep? ==> !s.cancelRequested && s.next == |c.toProcess|)
    && ((s.main.Gathering? || s.main.Returned? || s.main.Raised?) && !s.cancelRequested ==>
          s.sentinelsPut == |s.workers| && s.next == |c.toProcess|)
    && (s.cancelRequested ==> s.cancelSet && (s.main.Gathering? || s.main.Raised?))
    && (s.main.Returned? ==> AllDone(s.workers) && !AnyFailed(s.workers))
    && (s.main.Raised? ==> AllDone(s.workers) && AnyFailed(s.workers))
    && (s.main.Killed? ==> c.failOnError)
  }

  predicate CancelExplained(c: Config, s: State) {
    && (s.cancelSet <==> Count(s.workers, Broken) > 0)
    && (c.failOnError ==> !s.cancelSet)
    && (Count(s.workers, Stopped) > 0 || s.dropped != [] ==> s.cancelRequested)
    && (s.drained != [] ==> s.cancelSet)
  }

  predicate HistoryKept(c: Config, s: State) {
    && |s.completed| + |s.skipped| == |s.outcomes|
    && (!c.failOnError ==> s.consecutive == TrailingFailures(s.outcomes))
    && (!c.failOnError ==> (s.cancelSet <==> Tripped(s.outcomes, c.threshold)))
    && (c.failOnError ==> s.skipped == [])
  }

  /** The permits and sentinels add up. */
  predicate Counted(c: Config, s: State) {
    Shape(c, s) && PermitsCounted(c, s) && SentinelsCounted(c, s)
  }

  /** The phase of the main coroutine, the cancel flag and the history agree. */
  predicate Flow(c: Config, s: State) {
    PhasesAgree(c, s) && CancelExplained(c, s) && HistoryKept(c, s)
  }

  ghost predicate Inv(c: Config, s: State) { Counted(c, s) && Flow(c, s) && Conserved(c, s) }

  lemma {:induction false} IdleWorkersFacts(n: nat)
    ensures |IdleWorkers(n)| == n && Holding(IdleWorkers(n)) == 0
    ensures forall i :: 0 <= i < n ==> IdleWorkers(n)[i].Idle?
    ensures forall x :: Held(IdleWorkers(n), x) == 0
    ensures forall k :: Count(IdleWorkers(n), k) == if k == Waiting then n else 0
  {
    if n > 0 {
      IdleWorkersFacts(n - 1);
      assert IdleWorkers(n)[1..] == IdleWorkers(n - 1);
    }
  }

  lemma InvInit(c: Config)
    ensures Inv(c, Init(c))
  {
    IdleWorkersFacts(2 * c.concurrency);
  }

  /** What one worker update does to every count. */
  lemma MoveFacts(ws: seq<Worker>, i: nat, w: Worker)
    requires i < |ws|
    ensures forall k :: Count(ws[i := w], k) + (if KindOf(ws[i]) == k then 1 else 0)
                     == Count(ws, k) + (if KindOf(w) == k then 1 else 0)
  {
    forall k { CountUpdate(ws, i, w, k); }
  }

  /** What one worker update does to what is held. */
  lemma HoldFacts(ws: seq<Worker>, i: nat, w: Worker)
    requires i < |ws|
    ensures forall x :: Held(ws[i := w], x) + HeldBy(ws[i], x) == Held(ws, x) + HeldBy(w, x)
    ensures Holding(ws[i := w]) + (if Holds(ws[i]) then 1 else 0) == Holding(ws) + (if Holds(w) then 1 else 0)
  {
    forall x { HeldUpdate(ws, i, w, x); }
    HoldingUpdate(ws, i, w);
  }

  // Each kind of step is taken twice: once for where the samples are, once for the rest.

  lemma ConservedMain(c: Config, s: State)
    requires Conserved(c, s) && PhasesAgree(c, s) && MainEnabled(c, s)
    ensures Conserved(c, MainNext(c, s))
  {
    if s.next < |c.toProcess| && (s.main.Feeding? || s.main.FeedAsleep?) {
      forall x { QueueAppend(s.queue, Sample(c.toProcess[s.next]), x); }
      assert c.toProcess[..s.next + 1] == c.toProcess[..s.next] + [c.toProcess[s.next]];
    } else if s.main.PutSentinels? || s.main.SentinelAsleep? {
      forall x { QueueAppend(s.queue, Sentinel, x); }
    }
  }

  lemma CountedMain(c: Config, s: State)
    requires Counted(c, s) && PhasesAgree(c, s) && MainEnabled(c, s)
    ensures Counted(c, MainNext(c, s))
  {
    if s.next < |c.toProcess| && (s.main.Feeding? || s.main.FeedAsleep?) {
      QueueAppend(s.queue, Sample(c.toProcess[s.next]), 0);
    } else if s.main.PutSentinels? || s.main.SentinelAsleep? {
      QueueAppend(s.queue, Sentinel, 0);
    }
  }

  lemma FlowMain(c: Config, s: State)
    requires Counted(c, s) && Flow(c, s) && MainEnabled(c, s)
    ensures Flow(c, MainNext(c, s))
  {
    CountBounds(s.workers, Broken);
  }

  lemma ConservedGet(c: Config, s: State, w: nat)
    requires Conserved(c, s)
    requires Enabled(c, s, Get(w))
    ensures Conserved(c, GetNext(s, w))
  {
    hide Held, Holding;
    HoldFacts(s.workers, w, GetNext(s, w).workers[w]);
  }

  lemma CountedGet(c: Config, s: State, w: nat)
    requires Counted(c, s)
    requires Enabled(c, s, Get(w))
    ensures Counted(c, GetNext(s, w))
  {
    hide Count;
    QueueKinds(s.queue[1..], 0);
    MoveFacts(s.workers, w, GetNext(s, w).workers[w]);
  }

  lemma FlowGet(c: Config, s: State, w: nat)
    requires Counted(c, s) && Flow(c, s)
    requires Enabled(c, s, Get(w))
    ensures Flow(c, GetNext(s, w))
  {
    hide Count;
    MoveFacts(s.workers, w, GetNext(s, w).workers[w]);
  }

  lemma ConservedAcquire(c: Config, s: State, w: nat)
    requires Conserved(c, s)
    requires Enabled(c, s, Acquire(w))
    ensures Conserved(c, AcquireNext(s, w))
  {
    hide Held, Holding;
    HoldFacts(s.workers, w, AcquireNext(s, w).workers[w]);
  }

  lemma CountedAcquire(c: Config, s: State, w: nat)
    requires Counted(c, s)
    requires Enabled(c, s, Acquire(w))
    ensures Counted(c, AcquireNext(s, w))
  {
    hide Count;
    MoveFacts(s.workers, w, AcquireNext(s, w).workers[w]);
  }

  lemma FlowAcquire(c: Config, s: State, w: nat)
    requires Counted(c, s) && Flow(c, s)
    requires Enabled(c, s, Acquire(w))
    ensures Flow(c, AcquireNext(s, w))
  {
    hide Count;
    MoveFacts(s.workers, w, AcquireNext(s, w).workers[w]);
  }

  /** A worker moves on without touching a semaphore. */
  lemma ConservedShift(c: Config, s: State, w: nat, to: Worker)
    requires Conserved(c, s)
    requires WorkerEnabled(s, w) && !s.cancelRequested
    requires Holds(s.workers[w]) && Holds(to) && to.idx == s.workers[w].idx && KindOf(to) == KindOf(s.workers[w])
    ensures Conserved(c, s.(workers := s.workers[w := to]))
  {
    hide Held, Holding;
    HoldFacts(s.workers, w, to);
  }

  lemma CountedShift(c: Config, s: State, w: nat, to: Worker)
    requires Counted(c, s)
    requires WorkerEnabled(s, w) && !s.cancelRequested
    requires Holds(s.workers[w]) && Holds(to) && to.idx == s.workers[w].idx && KindOf(to) == KindOf(s.workers[w])
    ensures Counted(c, s.(workers := s.workers[w := to]))
  {
    hide Count;
    MoveFacts(s.workers, w, to);
  }

  lemma FlowShift(c: Config, s: State, w: nat, to: Worker)
    requires Counted(c, s) && Flow(c, s)
    requires WorkerEnabled(s, w) && !s.cancelRequested
    requires Holds(s.workers[w]) && Holds(to) && to.idx == s.workers[w].idx && KindOf(to) == KindOf(s.workers[w])
    ensures Flow(c, s.(workers := s.workers[w := to]))
  {
    hide Count;
    MoveFacts(s.workers, w, to);
  }

  /** A worker is done generating and gives its permit back. */
  lemma ConservedLeave(c: Config, s: State, w: nat, to: Worker)
    requires Conserved(c, s)
    requires WorkerEnabled(s, w) && !s.cancelRequested
    requires s.workers[w].Generating? && Holds(to) && to.idx == s.workers[w].idx && KindOf(to) == Waiting
    ensures Conserved(c, Leave(s, w, to))
  {
    hide Held, Holding;
    HoldFacts(s.workers, w, to);
  }

  lemma CountedLeave(c: Config, s: State, w: nat, to: Worker)
    requires Counted(c, s)
    requires WorkerEnabled(s, w) && !s.cancelRequested
    requires s.workers[w].Generating? && Holds(to) && to.idx == s.workers[w].idx && KindOf(to) == Waiting
    ensures Counted(c, Leave(s, w, to))
  {
    hide Count;
    MoveFacts(s.workers, w, to);
  }

  lemma FlowLeave(c: Config, s: State, w: nat, to: Worker)
    requires Counted(c, s) && Flow(c, s)
    requires WorkerEnabled(s, w) && !s.cancelRequested
    requires s.workers[w].Generating? && Holds(to) && to.idx == s.workers[w].idx && KindOf(to) == Waiting
    ensures Flow(c, Leave(s, w, to))
  {
    hide Count;
    MoveFacts(s.workers, w, to);
  }

  lemma ConservedSucceed(c: Config, s: State, w: nat)
    requires Conserved(c, s)
    requires WorkerEnabled(s, w) && !s.cancelRequested
    requires s.workers[w].Moving? || s.workers[w].Validating?
    ensures Conserved(c, SucceedNext(s, w, s.workers[w].idx))
  {
    hide Held, Holding;
    HoldFacts(s.workers, w, Idle);
  }

  lemma CountedSucceed(c: Config, s: State, w: nat)
    requires Counted(c, s)
    requires WorkerEnabled(s, w) && !s.cancelRequested
    requires s.workers[w].Moving? || s.workers[w].Validating?
    ensures Counted(c, SucceedNext(s, w, s.workers[w].idx))
  {
    hide Count;
    MoveFacts(s.workers, w, Idle);
  }

  lemma FlowSucceed(c: Config, s: State, w: nat)
    requires Counted(c, s) && Flow(c, s)
    requires WorkerEnabled(s, w) && !s.cancelRequested
    requires s.workers[w].Moving? || s.workers[w].Validating?
    ensures Flow(c, SucceedNext(s, w, s.workers[w].idx))
  {
    hide Count;
    MoveFacts(s.workers, w, Idle);
    TrippedAppend(s.outcomes, true, c.threshold);
  }

  lemma ConservedFail(c: Config, s: State, w: nat)
    requires Conserved(c, s)
    requires Enabled(c, s, Fail(w))
    ensures Conserved(c, FailNext(c, s, w))
  {
    hide Held, Holding;
    HoldFacts(s.workers, w, FailNext(c, s, w).workers[w]);
  }

  lemma CountedFail(c: Config, s: State, w: nat)
    requires Counted(c, s)
    requires Enabled(c, s, Fail(w))
    ensures Counted(c, FailNext(c, s, w))
  {
    hide Count;
    MoveFacts(s.workers, w, FailNext(c, s, w).workers[w]);
  }

  lemma FlowFail(c: Config, s: State, w: nat)
    requires Counted(c, s) && Flow(c, s)
    requires Enabled(c, s, Fail(w))
    ensures Flow(c, FailNext(c, s, w))
  {
    hide Count;
    MoveFacts(s.workers, w, FailNext(c, s, w).workers[w]);
    TrippedAppend(s.outcomes, false, c.threshold);
    assert (s.outcomes + [false])[..|s.outcomes|] == s.outcomes;
  }

  lemma ConservedCancel(c: Config, s: State, w: nat)
    requires Conserved(c, s)
    requires Enabled(c, s, DeliverCancel(w))
    ensures Conserved(c, CancelNext(s, w))
  {
    hide Held, Holding;
    HoldFacts(s.workers, w, Cancelled);
  }

  lemma CountedCancel(c: Config, s: State, w: nat)
    requires Counted(c, s)
    requires Enabled(c, s, DeliverCancel(w))
    ensures Counted(c, CancelNext(s, w))
  {
    hide Count;
    MoveFacts(s.workers, w, Cancelled);
  }

  lemma FlowCancel(c: Config, s: State, w: nat)
    requires Counted(c, s) && Flow(c, s)
    requires Enabled(c, s, DeliverCancel(w))
    ensures Flow(c, CancelNext(s, w))
  {
    hide Count;
    MoveFacts(s.workers, w, Cancelled);
  }

  lemma InvShift(c: Config, s: State, w: nat, to: Worker)
    requires Inv(c, s) && WorkerEnabled(s, w) && !s.cancelRequested
    requires Holds(s.workers[w]) && Holds(to) && to.idx == s.workers[w].idx && KindOf(to) == KindOf(s.workers[w])
    ensures Inv(c, s.(workers := s.workers[w := to]))
  {
    ConservedShift(c, s, w, to);
    CountedShift(c, s, w, to);
    FlowShift(c, s, w, to);
  }

  lemma InvLeave(c: Config, s: State, w: nat, to: Worker)
    requires Inv(c, s) && WorkerEnabled(s, w) && !s.cancelRequested
    requires s.workers[w].Generating? && Holds(to) && to.idx == s.workers[w].idx && KindOf(to) == Waiting
    ensures Inv(c, Leave(s, w, to))
  {
    ConservedLeave(c, s, w, to);
    CountedLeave(c, s, w, to);
    FlowLeave(c, s, w, to);
  }

  lemma InvSucceed(c: Config, s: State, w: nat)
    requires Inv(c, s) && WorkerEnabled(s, w) && !s.cancelRequested
    requires s.workers[w].Moving? || s.workers[w].Validating?
    ensures Inv(c, SucceedNext(s, w, s.workers[w].idx))
  {
    ConservedSucceed(c, s, w);
    CountedSucceed(c, s, w);
    FlowSucceed(c, s, w);
  }

  lemma InvProceed(c: Config, s: State, w: nat, locked: bool)
    requires Inv(c, s) && Enabled(c, s, Proceed(w, locked))
    ensures Inv(c, ProceedNext(c, s, w, locked))
  {
    match s.workers[w]
    case Generating(idx) => InvLeave(c, s, w, if locked then AwaitLock(idx) else AwaitWrite(idx));
    case AwaitLock(idx) => InvShift(c, s, w, AwaitWrite(idx));
    case Moving(idx) => if c.validate { InvShift(c, s, w, Validating(idx)); } else { InvSucceed(c, s, w); }
    case Validating(idx) => InvSucceed(c, s, w);
  }

  lemma InvStep(c: Config, s: State, step: Step)
    requires Inv(c, s) && Enabled(c, s, step)
    ensures Inv(c, Apply(c, s, step))
  {
    match step
    case MainStep => ConservedMain(c, s); CountedMain(c, s); FlowMain(c, s);
    case Get(w) => ConservedGet(c, s, w); CountedGet(c, s, w); FlowGet(c, s, w);
    case Acquire(w) => ConservedAcquire(c, s, w); CountedAcquire(c, s, w); FlowAcquire(c, s, w);
    case Proceed(w, locked) => InvProceed(c, s, w, locked);
    case Fail(w) => ConservedFail(c, s, w); CountedFail(c, s, w); FlowFail(c, s, w);
    case DeliverCancel(w) => ConservedCancel(c, s, w); CountedCancel(c, s, w); FlowCancel(c, s, w);
  }

  lemma {:induction false} InvRun(c: Config, run: seq<State>, i: nat)
    requires IsRun(c, run) && i < |run|
    ensures Inv(c, run[i])
  {
    if i == 0 {
      InvInit(c);
    } else {
      InvRun(c, run, i - 1);
      assert Next(c, run[i - 1], run[i - 1 + 1]);
      var step :| Enabled(c, run[i - 1], step) && run[i] == Apply(c, run[i - 1], step);
      InvStep(c, run[i - 1], step);
    }
  }
}
