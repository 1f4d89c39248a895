/** Which configurations can hang: the deadlock of the sentinel puts, decided by the
    number of samples, the concurrency and the failure threshold. */
module WorkerPoolDeadlock {
  import opened WorkerPool
  import opened WorkerPoolSafety
  import opened WorkerPoolResults

  /** How many failures in a row set cancel_event: a threshold below 1 acts like 1. */
  function Tripping(c: Config): nat { if c.threshold > 1 then c.threshold else 1 }

  /** Enough samples to fill the queue and trip the threshold, with failures tolerated. */
  predicate Exposed(c: Config) {
    c.concurrency > 0 && !c.failOnError && |c.toProcess| >= 4 * c.concurrency + Tripping(c)
  }

  /** Some run reaches a state that has not ended and cannot go on. */
  ghost predicate CanHang(c: Config) { exists s :: Reachable(c, s) && !Final(s) && !CanStep(c, s) }

  // ----- what a hang needs -----

  /** Everything ever put on the queue is still there or was taken by somebody. */
  predicate Tally(s: State) {
    s.next + Sentinels(s.queue) ==
    |s.queue| + Holding(s.workers) + |s.completed| + |s.skipped| + |s.drained| + |s.dropped|
  }

  /** Every failed worker skipped a sample, on top of those that led up to the threshold. */
  predicate Skips(c: Config, s: State) {
    && s.consecutive <= |s.skipped|
    && (Count(s.workers, Broken) > 0 ==> |s.skipped| + 1 >= Tripping(c) + Count(s.workers, Broken))
  }

  lemma TallyMain(c: Config, s: State)
    requires Tally(s) && MainEnabled(c, s)
    ensures Tally(MainNext(c, s))
  {
    if s.next < |c.toProcess| { QueueAppend(s.queue, Sample(c.toProcess[s.next]), 0); }
    QueueAppend(s.queue, Sentinel, 0);
  }

  lemma TallyGet(s: State, w: nat)
    requires Tally(s) && w < |s.workers| && s.workers[w].Idle? && |s.queue| > 0
    ensures Tally(GetNext(s, w))
  {
    HoldingUpdate(s.workers, w, GetNext(s, w).workers[w]);
  }

  /** A worker moves on with its sample. */
  lemma TallyMove(s: State, t: State, w: nat)
    requires Tally(s) && w < |s.workers| && |t.workers| == |s.workers|
    requires Holds(s.workers[w]) && Holds(t.workers[w]) && t.workers == s.workers[w := t.workers[w]]
    requires t.next == s.next && t.queue == s.queue && t.completed == s.completed && t.skipped == s.skipped
    requires t.drained == s.drained && t.dropped == s.dropped
    ensures Tally(t)
  {
    HoldingUpdate(s.workers, w, t.workers[w]);
  }

  /** A worker lets go of its sample, which is recorded in one of the lists. */
  lemma TallyDone(s: State, t: State, w: nat)
    requires Tally(s) && w < |s.workers| && |t.workers| == |s.workers|
    requires !Holds(t.workers[w]) && t.workers == s.workers[w := t.workers[w]]
    requires t.next == s.next && t.queue == s.queue && t.drained == s.drained
    requires |t.completed| + |t.skipped| + |t.dropped|
          == |s.completed| + |s.skipped| + |s.dropped| + if Holds(s.workers[w]) then 1 else 0
    ensures Tally(t)
  {
    HoldingUpdate(s.workers, w, t.workers[w]);
  }

  lemma TallyStep(c: Config, s: State, step: Step)
    requires Tally(s) && Enabled(c, s, step)
    ensures Tally(Apply(c, s, step))
  {
    hide Tally, Full, AllDone, AnyFailed;
    var t := Apply(c, s, step);
    match step
    case MainStep => TallyMain(c, s);
    case Get(w) => TallyGet(s, w);
    case Acquire(w) => TallyMove(s, t, w);
    case Proceed(w, locked) => TallyProceed(c, s, w, locked);
    case Fail(w) => TallyFail(c, s, w);
    case DeliverCancel(w) => TallyDone(s, t, w);
  }

  lemma TallyProceed(c: Config, s: State, w: nat, locked: bool)
    requires Tally(s) && Enabled(c, s, Proceed(w, locked))
    ensures Tally(ProceedNext(c, s, w, locked))
  {
    hide Tally;
    var t := ProceedNext(c, s, w, locked);
    if Holds(t.workers[w]) { TallyMove(s, t, w); } else { TallyDone(s, t, w); }
  }

  lemma TallyFail(c: Config, s: State, w: nat)
    requires Tally(s) && Enabled(c, s, Fail(w))
    ensures Tally(FailNext(c, s, w))
  {
    hide Tally;
    var t := FailNext(c, s, w);
    if c.failOnError { TallyMove(s, t, w); } else { TallyDone(s, t, w); }
  }

  lemma SkipsStep(c: Config, s: State, step: Step)
    requires Skips(c, s) && Enabled(c, s, step)
    ensures Skips(c, Apply(c, s, step))
  {
    hide Count;
    if !step.MainStep? { CountUpdate(s.workers, step.w, Apply(c, s, step).workers[step.w], Broken); }
  }

  lemma {:induction false} TallyRun(c: Config, run: seq<State>, i: nat)
    requires IsRun(c, run) && i < |run|
    ensures Tally(run[i]) && Skips(c, run[i])
  {
    if i == 0 {
      IdleWorkersFacts(2 * c.concurrency);
    } else {
      hide Tally, Skips, Enabled, Apply;
      TallyRun(c, run, i - 1);
      assert Next(c, run[i - 1], run[i - 1 + 1]);
      var step :| Enabled(c, run[i - 1], step) && run[i] == Apply(c, run[i - 1], step);
      TallyStep(c, run[i - 1], step);
      SkipsStep(c, run[i - 1], step);
    }
  }

  /** In a blocked state every worker has failed, and most of the queue is samples. */
  lemma StuckIsExposed(c: Config, s: State)
    requires Reachable(c, s) && c.concurrency > 0 && Stuck(c, s)
    ensures Exposed(c)
  {
    var run :| IsRun(c, run) && run[|run| - 1] == s;
    TallyRun(c, run, |run| - 1);
    ReachableInv(c, s);
    hide Reachable, IsRun, Inv;
    StuckFacts(c, s);
    hide Stuck, Holding, Count, Sentinels;
  }

  lemma StuckFacts(c: Config, s: State)
    requires Inv(c, s) && c.concurrency > 0 && Stuck(c, s)
    ensures Count(s.workers, Broken) == 2 * c.concurrency && Holding(s.workers) == 0 && !c.failOnError
    ensures s.next == |c.toProcess| && |s.queue| == 4 * c.concurrency && Sentinels(s.queue) < 2 * c.concurrency
  {
    hide Conserved, HistoryKept, Count, Holding, Sentinels;
    CountBounds(s.workers, Stopped);
    CountBounds(s.workers, Left);
    CountBounds(s.workers, Broken);
    forall i | 0 <= i < |s.workers| ensures KindOf(s.workers[i]) == Broken { assert Done(s.workers[i]); }
    NoneHolds(s.workers);
  }

  lemma {:induction false} NoneHolds(ws: seq<Worker>)
    requires AllDone(ws)
    ensures Holding(ws) == 0
  {
    if ws != [] { NoneHolds(ws[1..]); }
  }

  // ----- single moves -----

  /** An idle worker takes a sample. */
  lemma TakeSample(c: Config, s: State, w: nat) returns (t: State)
    requires Reachable(c, s) && WorkerEnabled(s, w) && s.workers[w].Idle? && |s.queue| > 0
    requires !s.cancelSet && s.sentinelsPut == 0
    ensures Reachable(c, t) && w < |t.workers| && t.workers[w].AwaitVllm?
    ensures t == s.(queue := s.queue[1..], workers := s.workers[w := t.workers[w]])
  {
    ReachableInv(c, s);
    t := GetNext(s, w);
    ExtendReachable(c, s, Get(w));
  }

  /** What a worker that took a sample needs to go on. */
  predicate CanGenerate(s: State, w: nat) {
    WorkerEnabled(s, w) && s.workers[w].AwaitVllm? && s.vllmFree > 0 && !s.cancelRequested
  }

  lemma Generate(c: Config, s: State, w: nat) returns (t: State)
    requires Reachable(c, s) && CanGenerate(s, w)
    ensures Reachable(c, t)
    ensures t == s.(vllmFree := s.vllmFree - 1, workers := s.workers[w := Generating(s.workers[w].idx)])
  {
    t := AcquireNext(s, w);
    ExtendReachable(c, s, Acquire(w));
  }

  /** Nothing but the workers, the failure counter and the record of samples differs. */
  predicate SameMain(s: State, t: State) {
    && t.main == s.main && t.queue == s.queue && t.next == s.next && t.sentinelsPut == s.sentinelsPut
    && t.cancelRequested == s.cancelRequested
  }

  /** The request of a worker fails. */
  lemma FailRequest(c: Config, s: State, w: nat) returns (t: State)
    requires Reachable(c, s) && CanGenerate(s, w) && !c.failOnError
    ensures Reachable(c, t) && SameMain(s, t) && t.consecutive == s.consecutive + 1
    ensures var trips := s.consecutive + 1 >= c.threshold;
      t.workers == s.workers[w := if trips then Failed else Idle] && t.cancelSet == (s.cancelSet || trips)
  {
    var generating := Generate(c, s, w);
    t := FailNext(c, generating, w);
    ExtendReachable(c, generating, Fail(w));
  }

  /** The sample of a worker is generated, moved and saved. */
  lemma SaveSample(c: Config, s: State, w: nat) returns (t: State)
    requires Reachable(c, s) && CanGenerate(s, w) && s.writeFree > 0
    ensures Reachable(c, t) && SameMain(s, t) && t.consecutive == 0
    ensures t.workers == s.workers[w := Idle] && t.cancelSet == s.cancelSet
  {
    t := Generate(c, s, w);
    t := Go(c, t, Proceed(w, false));
    t := Go(c, t, Acquire(w));
    t := Go(c, t, Proceed(w, false));
    if c.validate { t := Go(c, t, Proceed(w, false)); }
  }

  lemma Go(c: Config, s: State, step: Step) returns (t: State)
    requires Reachable(c, s) && Enabled(c, s, step)
    ensures Reachable(c, t) && t == Apply(c, s, step)
  {
    t := Apply(c, s, step);
    ExtendReachable(c, s, step);
  }

  // ----- the feeder asleep on a full queue, every worker idle -----

  ghost predicate Parked(c: Config, s: State, fed: nat) {
    && Reachable(c, s) && s.main.FeedAsleep? && s.next == fed && |s.queue| == 4 * c.concurrency && !s.cancelSet
    && forall w :: 0 <= w < |s.workers| ==> s.workers[w].Idle?
  }

  /** The feeder fills the queue. */
  lemma {:induction false} Fill(c: Config, n: nat) returns (s: State)
    requires c.concurrency > 0 && n <= 4 * c.concurrency < |c.toProcess|
    ensures Reachable(c, s) && s.main.Feeding? && s.next == |s.queue| == n && !s.cancelSet && s.consecutive == 0
    ensures s.workers == IdleWorkers(2 * c.concurrency)
  {
    if n == 0 {
      s := Init(c);
      assert IsRun(c, [s]);
      assert [s][|[s]| - 1] == s;
    } else {
      s := Fill(c, n - 1);
      s := Go(c, s, MainStep);
    }
  }

  lemma ParkedFirst(c: Config) returns (s: State)
    requires c.concurrency > 0 && 4 * c.concurrency < |c.toProcess|
    ensures Parked(c, s, 4 * c.concurrency) && s.consecutive == 0
  {
    s := Fill(c, 4 * c.concurrency);
    s := Go(c, s, MainStep);
    IdleWorkersFacts(2 * c.concurrency);
  }

  lemma ParkedPermits(c: Config, s: State, fed: nat)
    requires Parked(c, s, fed) && c.concurrency > 0
    ensures |s.workers| == 2 * c.concurrency && s.vllmFree == c.concurrency && s.writeFree == c.concurrency
    ensures !s.cancelRequested && s.sentinelsPut == 0
  {
    ReachableInv(c, s);
    CountBounds(s.workers, Generation);
    CountBounds(s.workers, Writing);
  }

  /** The feeder wakes up, puts one sample and sleeps again. */
  lemma Refill(c: Config, s: State) returns (t: State)
    requires Reachable(c, s) && c.concurrency > 0 && s.main.FeedAsleep? && !s.cancelSet
    requires |s.queue| == 4 * c.concurrency - 1 && s.next + 1 < |c.toProcess|
    requires forall w :: 0 <= w < |s.workers| ==> s.workers[w].Idle?
    ensures Parked(c, t, s.next + 1) && t.consecutive == s.consecutive
  {
    t := Go(c, s, MainStep);
    t := Go(c, t, MainStep);
  }

  /** Worker 0 takes a sample, which is saved or skipped, and the feeder refills. */
  lemma ParkedNext(c: Config, s: State, fed: nat, saved: bool) returns (t: State)
    requires Parked(c, s, fed) && c.concurrency > 0 && fed + 1 < |c.toProcess|
    requires !saved ==> !c.failOnError && s.consecutive + 1 < c.threshold
    ensures Parked(c, t, fed + 1) && t.consecutive == if saved then 0 else s.consecutive + 1
  {
    ParkedPermits(c, s, fed);
    var taken := TakeSample(c, s, 0);
    if saved { t := SaveSample(c, taken, 0); } else { t := FailRequest(c, taken, 0); }
    t := Refill(c, t);
  }

  /** The surplus is saved, then `fails` samples fail one after another. */
  lemma {:induction false} ParkedAt(c: Config, fed: nat, fails: nat) returns (s: State)
    requires c.concurrency > 0 && 4 * c.concurrency + fails <= fed < |c.toProcess|
    requires fails > 0 ==> !c.failOnError && fails < c.threshold
    ensures Parked(c, s, fed) && s.consecutive == fails
    decreases fed
  {
    if fed == 4 * c.concurrency {
      s := ParkedFirst(c);
    } else if fails > 0 {
      s := ParkedAt(c, fed - 1, fails - 1);
      s := ParkedNext(c, s, fed - 1, false);
    } else {
      s := ParkedAt(c, fed - 1, 0);
      s := ParkedNext(c, s, fed - 1, true);
    }
  }

  // ----- every worker takes a sample, and the sentinels block -----

  /** The first `n` workers hold a sample each. */
  ghost predicate Taken(c: Config, s: State, n: nat) {
    && Reachable(c, s) && s.main.FeedAsleep? && s.next + 1 == |c.toProcess| && !s.cancelSet
    && |s.workers| == 2 * c.concurrency && n <= |s.workers| && |s.queue| + n == 4 * c.concurrency
    && s.consecutive + 1 == Tripping(c)
    && (forall w :: 0 <= w < n ==> s.workers[w].AwaitVllm?)
    && forall w :: n <= w < |s.workers| ==> s.workers[w].Idle?
  }

  lemma {:induction false} TakeAll(c: Config, n: nat) returns (s: State)
    requires Exposed(c) && n <= 2 * c.concurrency
    ensures Taken(c, s, n)
  {
    if n == 0 {
      s := ParkedAt(c, |c.toProcess| - 1, Tripping(c) - 1);
      ParkedPermits(c, s, |c.toProcess| - 1);
    } else {
      var before := TakeAll(c, n - 1);
      ReachableInv(c, before);
      s := TakeSample(c, before, n - 1);
    }
  }

  /** The main coroutine has put `n` sentinels behind the last samples. */
  ghost predicate Sending(c: Config, s: State, n: nat) {
    && Reachable(c, s) && s.main.PutSentinels? && !s.cancelSet && s.sentinelsPut == n
    && |s.workers| == 2 * c.concurrency && |s.queue| == 2 * c.concurrency + 1 + n
    && s.consecutive + 1 == Tripping(c)
    && forall w :: 0 <= w < |s.workers| ==> s.workers[w].AwaitVllm?
  }

  lemma {:induction false} SendSome(c: Config, n: nat) returns (s: State)
    requires Exposed(c) && n < 2 * c.concurrency
    ensures Sending(c, s, n)
  {
    if n == 0 {
      s := TakeAll(c, 2 * c.concurrency);
      ReachableInv(c, s);
      s := Go(c, s, MainStep);
      s := Go(c, s, MainStep);
      s := Go(c, s, MainStep);
    } else {
      s := SendSome(c, n - 1);
      s := Go(c, s, MainStep);
    }
  }

  // ----- every request fails -----

  /** The last sentinel does not fit, and the first `n` workers have failed. */
  ghost predicate Dying(c: Config, s: State, n: nat) {
    && Reachable(c, s) && s.main.SentinelAsleep? && Full(c, s.queue)
    && |s.workers| == 2 * c.concurrency && n <= |s.workers| && s.consecutive + 1 >= Tripping(c)
    && (forall w :: 0 <= w < n ==> s.workers[w].Failed?)
    && forall w :: n <= w < |s.workers| ==> s.workers[w].AwaitVllm?
  }

  lemma DyingPermits(c: Config, s: State, n: nat)
    requires Dying(c, s, n) && c.concurrency > 0
    ensures s.vllmFree == c.concurrency && !s.cancelRequested
  {
    ReachableInv(c, s);
    CountBounds(s.workers, Generation);
  }

  lemma {:induction false} FailAll(c: Config, n: nat) returns (s: State)
    requires Exposed(c) && n <= 2 * c.concurrency
    ensures Dying(c, s, n)
  {
    if n == 0 {
      s := SendSome(c, 2 * c.concurrency - 1);
      s := Go(c, s, MainStep);
    } else {
      var before := FailAll(c, n - 1);
      DyingPermits(c, before, n - 1);
      s := FailRequest(c, before, n - 1);
    }
  }

  // ----- the exact condition -----

  /** A run can hang if and only if the configuration is exposed: with the default
      threshold, when there are at least five samples for each unit of concurrency. */
  lemma HangsExactlyIfExposed(c: Config)
    ensures CanHang(c) <==> Exposed(c)
  {
    if Exposed(c) {
      var s := FailAll(c, 2 * c.concurrency);
      Progress(c, s);
      assert Stuck(c, s);
    }
    if CanHang(c) {
      var s :| Reachable(c, s) && !Final(s) && !CanStep(c, s);
      if c.concurrency == 0 { NoWorkersNoHang(c, s); }
      Progress(c, s);
      StuckIsExposed(c, s);
    }
  }

  /** `--concurrency 1` with its default threshold, and six samples. */
  const SMALL := Config(1, [0, 1, 2, 3, 4, 5], 1, false, false)

  /** In such a run the main coroutine waits in `queue.put(None)` for good, with no worker
      left and four items queued. */
  lemma LateCancelDeadlocks() returns (s: State)
    ensures Reachable(SMALL, s) && !Final(s) && !CanStep(SMALL, s)
    ensures s.cancelSet && Stuck(SMALL, s) && |s.queue| == 4
  {
    s := FailAll(SMALL, 2);
    assert Stuck(SMALL, s);
    Progress(SMALL, s);
    StuckOnlyAfterLateCancel(SMALL, s);
    ReachableInv(SMALL, s);
  }
}
