/** What the offline run guarantees over whole runs: conservation, cancellation,
    progress and termination. */
module WorkerPoolResults {
  import opened Common
  import opened WorkerPool
  import opened WorkerPoolSafety

  lemma ReachableInv(c: Config, s: State)
    requires Reachable(c, s)
    ensures Inv(c, s)
  {
    var run :| IsRun(c, run) && run[|run| - 1] == s;
    InvRun(c, run, |run| - 1);
  }

  // ----- conservation -----

  lemma {:induction false} DistinctOnce(xs: seq<nat>, x: nat)
    requires Distinct(xs)
    ensures multiset(xs)[x] == if x in xs then 1 else 0
  {
    if xs != [] {
      var n := |xs| - 1;
      DistinctOnce(xs[..n], x);
      assert xs == xs[..n] + [xs[n]];
      assert forall y :: y in xs <==> y in xs[..n] || y == xs[n];
    }
  }

  lemma DistinctSplit(xs: seq<nat>, n: nat, x: nat)
    requires Distinct(xs) && n <= |xs| && x in xs[n..]
    ensures x !in xs[..n]
  {}

  /** Every sample of `to_process` is in exactly one place: not yet fed, or queued,
      held by one worker, saved, skipped, drained or dropped. */
  lemma ExactlyOnePlace(c: Config, s: State, x: nat)
    requires Reachable(c, s) && Distinct(c.toProcess)
    ensures s.next <= |c.toProcess|
    ensures x in c.toProcess[s.next..] ==> Places(s, x) == 0
    ensures x in c.toProcess[..s.next] ==> Places(s, x) == 1
    ensures x !in c.toProcess ==> Places(s, x) == 0
  {
    ReachableInv(c, s);
    DistinctOnce(c.toProcess[..s.next], x);
    assert multiset(c.toProcess[..s.next])[x] == Places(s, x);
    assert c.toProcess == c.toProcess[..s.next] + c.toProcess[s.next..];
    if x in c.toProcess[s.next..] { DistinctSplit(c.toProcess, s.next, x); }
  }

  /** The unfinished-task counter is what is queued plus what is held; the permits
      in use never exceed `concurrency`, and a worker holds at most one kind. */
  lemma CountersExact(c: Config, s: State)
    requires Reachable(c, s)
    ensures s.unfinished == |s.queue| + Holding(s.workers)
    ensures 0 <= s.vllmFree == c.concurrency - Count(s.workers, Generation)
    ensures 0 <= s.writeFree == c.concurrency - Count(s.workers, Writing)
    ensures c.concurrency > 0 ==> |s.queue| <= 4 * c.concurrency
  {
    ReachableInv(c, s);
  }

  /** A sentinel is taken only once no sample is queued, and one worker exits for each. */
  lemma SentinelsLast(c: Config, s: State, x: nat)
    requires Reachable(c, s) && Count(s.workers, Left) > 0
    ensures s.next == |c.toProcess| && Queued(s.queue, x) == 0
    ensures Count(s.workers, Left) == s.sentinelsPut - |s.queue|
  {
    ReachableInv(c, s);
    QueueKinds(s.queue, x);
  }

  lemma ReturnedIsClean(c: Config, s: State)
    requires Inv(c, s) && s.main.Returned? && c.concurrency > 0
    ensures !s.cancelSet && s.queue == [] && s.next == |c.toProcess|
    ensures Count(s.workers, Left) == |s.workers| && s.drained == [] && s.dropped == []
    ensures forall i :: 0 <= i < |s.workers| ==> !Holds(s.workers[i])
  {
    CountBounds(s.workers, Broken);
    CountBounds(s.workers, Stopped);
    CountBounds(s.workers, Left);
    QueueKinds(s.queue, 0);
    forall i | 0 <= i < |s.workers| ensures KindOf(s.workers[i]) == Left {
      assert Done(s.workers[i]);
    }
  }

  /** A normal return means cancel was never set, and that `completed` and `skipped`
      split `to_process`; `num_saved` is then the number of samples saved. */
  lemma ReturnSavesEverything(c: Config, s: State)
    requires Reachable(c, s) && s.main.Returned? && c.concurrency > 0
    ensures !s.cancelSet
    ensures multiset(s.completed) + multiset(s.skipped) == multiset(c.toProcess)
    ensures |c.toProcess| - |s.skipped| == |s.completed|
  {
    ReachableInv(c, s);
    ReturnedIsClean(c, s);
    assert c.toProcess[..s.next] == c.toProcess;
    forall x ensures (multiset(s.completed) + multiset(s.skipped))[x] == multiset(c.toProcess)[x] {
      NothingHeld(s.workers, x);
      assert multiset(c.toProcess[..s.next])[x] == Places(s, x);
    }
    assert multiset(s.completed) + multiset(s.skipped) == multiset(c.toProcess);
    assert |multiset(s.completed) + multiset(s.skipped)| == |multiset(c.toProcess)|;
  }

  // ----- concurrency zero -----

  /** The run of the main coroutine alone, `n` samples into the feed loop. */
  function FedAlone(c: Config, n: nat): State
    requires n <= |c.toProcess|
  {
    if n == 0 then Init(c)
    else
      var before := FedAlone(c, n - 1);
      before.(queue := before.queue + [Sample(c.toProcess[n - 1])], unfinished := before.unfinished + 1, next := n)
  }

  lemma {:induction false} FedAloneReachable(c: Config, n: nat)
    requires n <= |c.toProcess| && c.concurrency == 0
    ensures Reachable(c, FedAlone(c, n))
    ensures var s := FedAlone(c, n);
            s.main.Feeding? && s.next == n && !s.cancelSet && s.workers == [] && s.sentinelsPut == 0
            && s.completed == [] && s.skipped == []
  {
    if n == 0 {
      assert IsRun(c, [Init(c)]);
    } else {
      FedAloneReachable(c, n - 1);
      ExtendReachable(c, FedAlone(c, n - 1), MainStep);
    }
  }

  lemma ExtendReachable(c: Config, s: State, step: Step)
    requires Reachable(c, s) && Enabled(c, s, step)
    ensures Reachable(c, Apply(c, s, step))
  {
    var run :| IsRun(c, run) && run[|run| - 1] == s;
    var longer := run + [Apply(c, s, step)];
    forall i | 0 <= i < |longer| - 1 ensures Next(c, longer[i], longer[i + 1]) {
      if i < |run| - 1 {
        assert Next(c, run[i], run[i + 1]);
      }
    }
    assert IsRun(c, longer);
  }

  /** With `--concurrency 0` the queue is unbounded and there are no workers: the run
      of the main coroutine alone returns normally with nothing saved. */
  lemma ZeroConcurrencySavesNothing(c: Config) returns (s: State)
    requires c.concurrency == 0
    ensures Reachable(c, s) && s.main.Returned? && s.completed == [] && s.skipped == []
    ensures |c.toProcess| - |s.skipped| == |s.completed| <==> c.toProcess == []
  {
    var n := |c.toProcess|;
    FedAloneReachable(c, n);
    s := FedAlone(c, n);
    ExtendReachable(c, s, MainStep);
    s := Apply(c, s, MainStep);
    ExtendReachable(c, s, MainStep);
    s := Apply(c, s, MainStep);
    ExtendReachable(c, s, MainStep);
    s := Apply(c, s, MainStep);
    ExtendReachable(c, s, MainStep);
    s := Apply(c, s, MainStep);
  }

  /** Without workers nothing happens to any sample, and nothing kills the process. */
  predicate Untouched(s: State) {
    s.workers == [] && s.completed == [] && s.skipped == [] && !s.cancelSet && !s.main.Killed?
  }

  lemma {:induction false} UntouchedRun(c: Config, run: seq<State>, i: nat)
    requires IsRun(c, run) && i < |run| && c.concurrency == 0
    ensures Untouched(run[i])
  {
    if i > 0 {
      UntouchedRun(c, run, i - 1);
      assert Next(c, run[i - 1], run[i - 1 + 1]);
      var step :| Enabled(c, run[i - 1], step) && run[i] == Apply(c, run[i - 1], step);
      assert step == MainStep;
    }
  }

  /** Of every run that returned: `num_saved` is the number of samples saved exactly when
      there is at least one worker, or nothing to process. */
  lemma NumSavedIsRight(c: Config, s: State)
    requires Reachable(c, s) && s.main.Returned?
    ensures |c.toProcess| - |s.skipped| == |s.completed| <==> c.concurrency > 0 || c.toProcess == []
  {
    if c.concurrency > 0 {
      ReturnSavesEverything(c, s);
    } else {
      var run :| IsRun(c, run) && run[|run| - 1] == s;
      UntouchedRun(c, run, |run| - 1);
    }
  }

  // ----- cancellation -----

  /** `_consecutive` is the length of the trailing failure run, and cancel_event is
      set exactly from the first time such a run reaches the threshold. */
  lemma CancelMeansThreshold(c: Config, s: State)
    requires Reachable(c, s) && !c.failOnError
    ensures s.consecutive == TrailingFailures(s.outcomes)
    ensures s.cancelSet <==> Tripped(s.outcomes, c.threshold)
    ensures s.cancelSet <==> AnyFailed(s.workers)
  {
    ReachableInv(c, s);
    CountBounds(s.workers, Broken);
  }

  /** No step clears cancel_event or the record of what happened. */
  lemma {:induction false} CancelIsForever(c: Config, run: seq<State>, i: nat, j: nat)
    requires IsRun(c, run) && i <= j < |run|
    ensures run[i].cancelSet ==> run[j].cancelSet
    ensures run[i].outcomes <= run[j].outcomes && run[i].skipped <= run[j].skipped
    decreases j - i
  {
    if i < j {
      CancelIsForever(c, run, i, j - 1);
      assert Next(c, run[j - 1], run[j - 1 + 1]);
      var step :| Enabled(c, run[j - 1], step) && run[j] == Apply(c, run[j - 1], step);
      CancelKept(c, run[j - 1], step);
      hide Enabled, Apply, IsRun;
    }
  }

  lemma CancelKept(c: Config, s: State, step: Step)
    requires Enabled(c, s, step)
    ensures var t := Apply(c, s, step);
      (s.cancelSet ==> t.cancelSet) && s.outcomes <= t.outcomes && s.skipped <= t.skipped
  {}

  /** Cancelled before the shutdown test, or shut down by it. */
  predicate CancelledInTime(s: State) {
    && s.cancelSet && s.sentinelsPut == 0
    && (s.main.Feeding? || s.main.FeedAsleep? || s.main.Testing?
        || (s.main.Gathering? && s.cancelRequested) || s.main.Raised?)
  }

  lemma CancelledInTimeStep(c: Config, s: State, step: Step)
    requires Inv(c, s) && CancelledInTime(s) && Enabled(c, s, step)
    ensures CancelledInTime(Apply(c, s, step))
  {
    CountBounds(s.workers, Broken);
    match step
    case MainStep =>
    case Get(w) =>
    case Acquire(w) =>
    case Proceed(w, locked) =>
    case Fail(w) =>
    case DeliverCancel(w) =>
  }

  lemma CancelledInTimeNext(c: Config, s: State, t: State)
    requires Inv(c, s) && CancelledInTime(s) && Next(c, s, t)
    ensures CancelledInTime(t)
  {
    var step :| Enabled(c, s, step) && t == Apply(c, s, step);
    CancelledInTimeStep(c, s, step);
  }

  lemma CancelledInTimeAt(c: Config, run: seq<State>, i: nat)
    requires IsRun(c, run) && i < |run| - 1 && CancelledInTime(run[i])
    ensures CancelledInTime(run[i + 1])
  {
    InvRun(c, run, i);
    assert Next(c, run[i], run[i + 1]);
    CancelledInTimeNext(c, run[i], run[i + 1]);
  }

  lemma {:induction false} CancelledInTimeRun(c: Config, run: seq<State>, i: nat, j: nat)
    requires IsRun(c, run) && i <= j < |run| && CancelledInTime(run[i])
    ensures CancelledInTime(run[j])
    decreases j - i
  {
    if i < j {
      CancelledInTimeRun(c, run, i, j - 1);
      CancelledInTimeAt(c, run, j - 1);
    }
  }

  /** The run ended by raising exactly when cancel was set; otherwise it returned,
      unless `--fail-on-error` killed the process. */
  lemma EndMatchesCancel(c: Config, s: State)
    requires Reachable(c, s) && Final(s)
    ensures s.main.Raised? <==> s.cancelSet
    ensures s.main.Killed? ==> c.failOnError
  {
    ReachableInv(c, s);
    CountBounds(s.workers, Broken);
  }

  // ----- progress -----

  /** Only `queue.put(None)` on a full queue with no worker left blocks for good. */
  predicate Stuck(c: Config, s: State) {
    s.main.SentinelAsleep? && Full(c, s.queue) && AllDone(s.workers)
  }

  ghost predicate CanStep(c: Config, s: State) { exists step :: Enabled(c, s, step) }

  lemma HolderExists(ws: seq<Worker>, k: Kind) returns (i: nat)
    requires Count(ws, k) > 0
    ensures i < |ws| && KindOf(ws[i]) == k
  {
    CountBounds(ws, k);
    i :| 0 <= i < |ws| && KindOf(ws[i]) == k;
  }

  /** A live worker that is not starved can always move, or the permit holder can. */
  lemma LiveWorkerMoves(c: Config, s: State, w: nat) returns (step: Step)
    requires Inv(c, s) && c.concurrency > 0
    requires WorkerEnabled(s, w) && !Done(s.workers[w])
    requires s.workers[w].Idle? && !s.cancelRequested ==> |s.queue| > 0
    ensures Enabled(c, s, step)
  {
    if s.cancelRequested {
      step := DeliverCancel(w);
    } else {
      match s.workers[w]
      case Idle => step := Get(w);
      case AwaitVllm(_) =>
        if s.vllmFree > 0 { step := Acquire(w); }
        else {
          var v := HolderExists(s.workers, Generation);
          step := Proceed(v, false);
        }
      case AwaitWrite(_) =>
        if s.writeFree > 0 { step := Acquire(w); }
        else {
          var v := HolderExists(s.workers, Writing);
          step := Proceed(v, false);
        }
      case _ => step := Proceed(w, false);
    }
  }

  /** In `gather` after a normal shutdown, a live worker still has a sentinel to take. */
  lemma SentinelLeft(c: Config, s: State, w: nat)
    requires Inv(c, s) && s.main.Gathering? && !s.cancelRequested
    requires w < |s.workers| && !Done(s.workers[w])
    ensures s.queue != []
  {
    CountBounds(s.workers, Left);
    assert KindOf(s.workers[w]) != Left;
  }

  /** While the main coroutine waits and somebody is alive, somebody can move. */
  lemma WaitingProgress(c: Config, s: State) returns (step: Step)
    requires Inv(c, s) && c.concurrency > 0 && !MainBusy(s.main) && !Final(s)
    requires !AllDone(s.workers) && !MainEnabled(c, s)
    ensures Enabled(c, s, step)
  {
    var w :| 0 <= w < |s.workers| && !Done(s.workers[w]);
    if s.main.Gathering? && !s.cancelRequested { SentinelLeft(c, s, w); }
    step := LiveWorkerMoves(c, s, w);
  }

  lemma FeederNotAlone(c: Config, s: State)
    requires Inv(c, s) && c.concurrency > 0 && s.main.FeedAsleep? && !s.cancelSet
    ensures !Done(s.workers[0])
  {}

  /** No deadlock except the one: every reachable state that has not ended has an
      enabled step, if and only if it is not the blocked sentinel put. */
  lemma Progress(c: Config, s: State)
    requires Reachable(c, s) && c.concurrency > 0 && !Final(s)
    ensures CanStep(c, s) <==> !Stuck(c, s)
  {
    ReachableInv(c, s);
    if MainEnabled(c, s) {
      assert Enabled(c, s, MainStep);
    } else if AllDone(s.workers) {
      if s.main.FeedAsleep? && !s.cancelSet { FeederNotAlone(c, s); }
      assert Stuck(c, s);
      forall step ensures !Enabled(c, s, step) {
        if !step.MainStep? && WorkerEnabled(s, step.w) {
          assert Done(s.workers[step.w]);
        }
      }
    } else {
      var step := WaitingProgress(c, s);
      assert Enabled(c, s, step);
    }
  }

  /** The deadlock needs a cancel that came after the shutdown test. */
  lemma StuckOnlyAfterLateCancel(c: Config, s: State)
    requires Reachable(c, s) && c.concurrency > 0 && Stuck(c, s)
    ensures s.cancelSet && !s.cancelRequested && !CancelledInTime(s) && !c.failOnError
  {
    ReachableInv(c, s);
    CountBounds(s.workers, Left);
    CountBounds(s.workers, Broken);
    CountBounds(s.workers, Stopped);
    var w :| 0 <= w < |s.workers| && KindOf(s.workers[w]) != Left;
    assert Done(s.workers[w]);
  }

  // ----- termination -----

  function WorkerRank(w: Worker): nat {
    match w
    case Idle => 1
    case AwaitVllm(_) => 8
    case Generating(_) => 7
    case AwaitLock(_) => 6
    case AwaitWrite(_) => 5
    case Moving(_) => 4
    case Validating(_) => 3
    case _ => 0
  }

  function WorkersRank(ws: seq<Worker>): nat {
    if ws == [] then 0 else WorkerRank(ws[0]) + WorkersRank(ws[1..])
  }

  function QueueRank(q: seq<Item>): nat {
    if q == [] then 0 else (if q[0].Sample? then 10 else 1) + QueueRank(q[1..])
  }

  function MainRank(m: Main): nat {
    match m
    case Feeding => 5
    case FeedAsleep => 4
    case Testing => 3
    case PutSentinels => 2
    case SentinelAsleep | Gathering => 1
    case _ => 0
  }

  /** Bounds the number of steps still possible. */
  function Rank(c: Config, s: State): int {
    20 * (|c.toProcess| - s.next) + 4 * (|s.workers| - s.sentinelsPut)
    + QueueRank(s.queue) + WorkersRank(s.workers) + MainRank(s.main)
  }

  lemma {:induction false} WorkersRankUpdate(ws: seq<Worker>, i: nat, w: Worker)
    requires i < |ws|
    ensures WorkersRank(ws[i := w]) + WorkerRank(ws[i]) == WorkersRank(ws) + WorkerRank(w)
  {
    if i == 0 {
      assert ws[i := w][1..] == ws[1..];
    } else {
      assert ws[i := w][1..] == ws[1..][i - 1 := w];
      WorkersRankUpdate(ws[1..], i - 1, w);
    }
  }

  lemma {:induction false} QueueRankAppend(q: seq<Item>, y: Item)
    ensures QueueRank(q + [y]) == QueueRank(q) + (if y.Sample? then 10 else 1)
  {
    if q == [] {
      assert q + [y] == [y];
    } else {
      assert (q + [y])[1..] == q[1..] + [y];
      QueueRankAppend(q[1..], y);
    }
  }

  lemma RankMain(c: Config, s: State)
    requires PhasesAgree(c, s) && MainEnabled(c, s)
    ensures Rank(c, MainNext(c, s)) < Rank(c, s)
  {
    if s.next < |c.toProcess| { QueueRankAppend(s.queue, Sample(c.toProcess[s.next])); }
    QueueRankAppend(s.queue, Sentinel);
  }

  lemma RankProceed(c: Config, s: State, w: nat, locked: bool)
    requires w < |s.workers| && CanRaise(s.workers[w])
    ensures Rank(c, ProceedNext(c, s, w, locked)) < Rank(c, s)
  {
    WorkersRankUpdate(s.workers, w, ProceedNext(c, s, w, locked).workers[w]);
  }

  lemma RankGet(c: Config, s: State, w: nat)
    requires Enabled(c, s, Get(w))
    ensures Rank(c, GetNext(s, w)) < Rank(c, s)
  {
    WorkersRankUpdate(s.workers, w, GetNext(s, w).workers[w]);
  }

  lemma RankFail(c: Config, s: State, w: nat)
    requires Enabled(c, s, Fail(w))
    ensures Rank(c, FailNext(c, s, w)) < Rank(c, s)
  {
    WorkersRankUpdate(s.workers, w, FailNext(c, s, w).workers[w]);
  }

  lemma RankStep(c: Config, s: State, step: Step)
    requires PhasesAgree(c, s) && Enabled(c, s, step)
    ensures Rank(c, Apply(c, s, step)) < Rank(c, s)
  {
    match step
    case MainStep => RankMain(c, s);
    case Get(w) => RankGet(c, s, w);
    case Acquire(w) => WorkersRankUpdate(s.workers, w, AcquireNext(s, w).workers[w]);
    case Proceed(w, locked) => RankProceed(c, s, w, locked);
    case Fail(w) => RankFail(c, s, w);
    case DeliverCancel(w) => WorkersRankUpdate(s.workers, w, Cancelled);
  }

  lemma RankNext(c: Config, s: State, t: State)
    requires PhasesAgree(c, s) && Next(c, s, t)
    ensures Rank(c, t) < Rank(c, s)
  {
    var step :| Enabled(c, s, step) && t == Apply(c, s, step);
    RankStep(c, s, step);
  }

  /** Every run, cancelled or not, is shorter than the rank of its first state. */
  lemma {:induction false} RunsAreFinite(c: Config, run: seq<State>, i: nat)
    requires IsRun(c, run) && i < |run|
    ensures 0 <= Rank(c, run[i]) <= Rank(c, Init(c)) - i
  {
    if i > 0 {
      RunsAreFinite(c, run, i - 1);
      InvRun(c, run, i - 1);
      assert Next(c, run[i - 1], run[i - 1 + 1]);
      RankNext(c, run[i - 1], run[i]);
    }
    InvRun(c, run, i);
  }

  /** A run that cannot go on. */
  ghost predicate Complete(c: Config, run: seq<State>) {
    IsRun(c, run) && !CanStep(c, run[|run| - 1])
  }

  lemma NoWorkersNoHang(c: Config, s: State)
    requires Reachable(c, s) && c.concurrency == 0 && !Final(s)
    ensures CanStep(c, s)
  {
    ReachableInv(c, s);
    assert Enabled(c, s, MainStep);
  }

  /** Every complete run without workers returns normally, with nothing saved or skipped. */
  lemma ZeroConcurrencyReturns(c: Config, run: seq<State>)
    requires Complete(c, run) && c.concurrency == 0
    ensures var end := run[|run| - 1];
            end.main.Returned? && end.completed == [] && end.skipped == []
  {
    var end := run[|run| - 1];
    assert Reachable(c, end);
    UntouchedRun(c, run, |run| - 1);
    if !Final(end) { NoWorkersNoHang(c, end); }
    EndMatchesCancel(c, end);
  }

  /** Liveness: a complete run in which cancel never fires returns normally (or is
      killed by `--fail-on-error`), with every sample saved or skipped. */
  lemma UncancelledRunReturns(c: Config, run: seq<State>)
    requires Complete(c, run) && c.concurrency > 0
    ensures var end := run[|run| - 1];
            !end.cancelSet && !c.failOnError ==>
              end.main.Returned? && multiset(end.completed) + multiset(end.skipped) == multiset(c.toProcess)
  {
    var end := run[|run| - 1];
    assert Reachable(c, end);
    if !end.cancelSet && !c.failOnError {
      if !Final(end) {
        Progress(c, end);
        StuckOnlyAfterLateCancel(c, end);
      }
      EndMatchesCancel(c, end);
      ReturnSavesEverything(c, end);
    }
  }

  /** Cancellation safety: once cancel fires before the shutdown test, every way the
      run can go on ends by re-raising, and no sentinel is ever put. */
  lemma CancelInTimeAlwaysRaises(c: Config, run: seq<State>, i: nat)
    requires Complete(c, run) && c.concurrency > 0 && i < |run|
    requires run[i].cancelSet && (run[i].main.Feeding? || run[i].main.FeedAsleep? || run[i].main.Testing?)
    ensures run[|run| - 1].main.Raised? && run[|run| - 1].sentinelsPut == 0
  {
    var end := run[|run| - 1];
    InvRun(c, run, i);
    CancelledInTimeRun(c, run, i, |run| - 1);
    assert Reachable(c, end);
    if !Final(end) {
      Progress(c, end);
      StuckOnlyAfterLateCancel(c, end);
    }
  }
}
