/** The coroutines of the offline run as code over shared mutable state.  Every method
    is one stretch between awaits and refines one step of `WorkerPool`. */
module WorkerPoolProgram {
  import opened WorkerPool
  import opened WorkerPoolSafety
  import opened WorkerPoolResults

  class FailureTracker {
    const threshold: int
    var consecutive: nat
    ghost var outcomes: seq<bool>

    ghost predicate Valid() reads this { consecutive == TrailingFailures(outcomes) }

    constructor (threshold: int)
      ensures Valid() && this.threshold == threshold && outcomes == []
    {
      this.threshold := threshold;
      consecutive := 0;
      outcomes := [];
    }

    method RecordSuccess()
      requires Valid()
      modifies this
      ensures Valid() && outcomes == old(outcomes) + [true] && consecutive == 0
    {
      consecutive := 0;
      outcomes := outcomes + [true];
    }

    /** Returns true when the trailing run of failures has reached the threshold. */
    method RecordFailure() returns (tripped: bool)
      requires Valid()
      modifies this
      ensures Valid() && outcomes == old(outcomes) + [false] && consecutive == old(consecutive) + 1
      ensures tripped <==> consecutive >= threshold
    {
      consecutive := consecutive + 1;
      outcomes := outcomes + [false];
      assert outcomes[..|outcomes| - 1] == old(outcomes);
      tripped := consecutive >= threshold;
    }
  }

  function Urgency(m: Main): nat {
    if m.Feeding? then 3 else if m.Testing? then 2 else if m.PutSentinels? then 1 else 0
  }

  function Distance(from: nat, to: nat): nat { if from < to then to - from else 0 }

  /** The main coroutine runs on until it awaits something. */
  function MainStretch(c: Config, s: State): State
    decreases Urgency(s.main), Distance(if s.main.Feeding? then s.next else s.sentinelsPut,
                                        if s.main.Feeding? then |c.toProcess| else |s.workers|)
  {
    if MainBusy(s.main) then MainStretch(c, MainNext(c, s)) else s
  }

  /** A stretch of the main coroutine is a sequence of its steps. */
  lemma {:induction false} MainStretchReachable(c: Config, s: State)
    requires Reachable(c, s)
    ensures Reachable(c, MainStretch(c, s)) && !MainBusy(MainStretch(c, s).main)
    decreases Urgency(s.main), Distance(if s.main.Feeding? then s.next else s.sentinelsPut,
                                        if s.main.Feeding? then |c.toProcess| else |s.workers|)
  {
    if MainBusy(s.main) {
      ExtendReachable(c, s, MainStep);
      MainStretchReachable(c, MainNext(c, s));
    }
  }

  class Pool {
    const cfg: Config
    var queue: seq<Item>
    var unfinished: int
    var workers: seq<Worker>
    var vllmFree: int
    var writeFree: int
    var next: nat
    var sentinelsPut: nat
    var main: Main
    var cancelEvent: bool
    var cancelRequested: bool
    var skippedIndices: seq<nat>
    const tracker: FailureTracker?
    ghost var completed: seq<nat>
    ghost var drained: seq<nat>
    ghost var dropped: seq<nat>
    ghost var outcomes: seq<bool>

    ghost function Snapshot(): State
      reads this, tracker
    {
      State(queue, unfinished, workers, vllmFree, writeFree, next, sentinelsPut, main, cancelEvent, cancelRequested,
            if tracker == null then 0 else tracker.consecutive,
            skippedIndices, completed, drained, dropped, outcomes)
    }

    /** The tracker exists unless `--fail-on-error`, and has seen every outcome. */
    ghost predicate Valid()
      reads this, tracker
    {
      && (tracker == null <==> cfg.failOnError)
      && (tracker != null ==> tracker.Valid() && tracker.threshold == cfg.threshold && tracker.outcomes == outcomes)
    }

    constructor (cfg: Config)
      ensures this.cfg == cfg && Valid() && Snapshot() == Init(cfg)
      ensures tracker != null ==> fresh(tracker)
    {
      this.cfg := cfg;
      queue, unfinished, workers := [], 0, IdleWorkers(2 * cfg.concurrency);
      vllmFree, writeFree := cfg.concurrency, cfg.concurrency;
      next, sentinelsPut, main := 0, 0, Feeding;
      cancelEvent, cancelRequested, skippedIndices := false, false, [];
      completed, drained, dropped, outcomes := [], [], [], [];
      if cfg.failOnError {
        tracker := null;
      } else {
        var t := new FailureTracker(cfg.threshold);
        tracker := t;
      }
    }

    /** `_feed_queue`: puts samples until the queue is full, the samples run out or
        cancel_event is set. */
    method FeedQueue()
      requires main.Feeding?
      modifies this`queue, this`unfinished, this`next, this`main
      ensures MainStretch(cfg, Snapshot()) == MainStretch(cfg, old(Snapshot()))
      ensures main.FeedAsleep? || main.Testing?
    {
      while main.Feeding?
        invariant main.Feeding? || main.FeedAsleep? || main.Testing?
        invariant MainStretch(cfg, Snapshot()) == MainStretch(cfg, old(Snapshot()))
        decreases main.Feeding?, |cfg.toProcess| - next
      {
        if next >= |cfg.toProcess| || cancelEvent {
          main := Testing;
        } else if Full(cfg, queue) {
          main := FeedAsleep;
        } else {
          queue := queue + [Sample(cfg.toProcess[next])];
          unfinished := unfinished + 1;
          next := next + 1;
        }
      }
    }

    /** The sentinel loop of `_shutdown_workers`. */
    method SendSentinels()
      requires main.PutSentinels?
      modifies this`queue, this`unfinished, this`sentinelsPut, this`main
      ensures MainStretch(cfg, Snapshot()) == MainStretch(cfg, old(Snapshot()))
      ensures main.SentinelAsleep? || main.Gathering?
    {
      while main.PutSentinels?
        invariant main.PutSentinels? || main.SentinelAsleep? || main.Gathering?
        invariant MainStretch(cfg, Snapshot()) == MainStretch(cfg, old(Snapshot()))
        decreases main.PutSentinels?, |workers| - sentinelsPut
      {
        if sentinelsPut >= |workers| {
          main := Gathering;
        } else if Full(cfg, queue) {
          main := SentinelAsleep;
        } else {
          queue := queue + [Sentinel];
          unfinished := unfinished + 1;
          sentinelsPut := sentinelsPut + 1;
        }
      }
    }

    /** `_shutdown_workers` up to `gather`: cancels the live workers, or sends one
        sentinel for each worker until the queue is full. */
    method ShutdownWorkers()
      requires main.Testing? || main.PutSentinels?
      modifies this`queue, this`unfinished, this`sentinelsPut, this`main, this`cancelRequested
      ensures Snapshot() == MainStretch(cfg, old(Snapshot()))
    {
      if main.Testing? && cancelEvent {
        cancelRequested := true;
        main := Gathering;
      } else {
        main := PutSentinels;
        SendSentinels();
      }
    }

    /** The main coroutine is resumed and runs to its next await. */
    method ResumeMain()
      requires Valid() && MainEnabled(cfg, Snapshot())
      modifies this`queue, this`unfinished, this`next, this`sentinelsPut, this`main, this`cancelRequested
      ensures Valid() && Snapshot() == MainStretch(cfg, MainNext(cfg, old(Snapshot())))
    {
      ghost var start := MainNext(cfg, Snapshot());
      if !MainBusy(main) { StepMain(start); }
      if main.Feeding? { FeedQueue(); }
      if main.Testing? || main.PutSentinels? { ShutdownWorkers(); }
    }

    /** The first thing the main coroutine does when it is resumed. */
    method StepMain(ghost start: State)
      requires MainEnabled(cfg, Snapshot()) && start == MainNext(cfg, Snapshot())
      requires !MainBusy(main)
      modifies this`queue, this`unfinished, this`next, this`sentinelsPut, this`main
      ensures Snapshot() == start
    {
      match main
      case Gathering =>
        main := if AnyFailed(workers) then Raised else Returned;
      case SentinelAsleep =>
        queue, unfinished := queue + [Sentinel], unfinished + 1;
        sentinelsPut, main := sentinelsPut + 1, PutSentinels;
      case FeedAsleep =>
        if next >= |cfg.toProcess| || cancelEvent {
          main := Testing;
        } else {
          queue, unfinished := queue + [Sample(cfg.toProcess[next])], unfinished + 1;
          next, main := next + 1, Feeding;
        }
    }

    /** A worker's `queue.get()` returns. */
    method Take(w: nat)
      requires Valid() && Enabled(cfg, Snapshot(), Get(w))
      modifies this`queue, this`unfinished, this`workers, this`drained
      ensures Valid() && Snapshot() == GetNext(old(Snapshot()), w)
    {
      var item := queue[0];
      queue := queue[1..];
      match item
      case Sentinel =>
        unfinished := unfinished - 1;
        workers := workers[w := Exited];
      case Sample(idx) =>
        if cancelEvent {
          unfinished := unfinished - 1;
          drained := drained + [idx];
        } else {
          workers := workers[w := AwaitVllm(idx)];
        }
    }

    /** A worker enters one of the two `async with` blocks. */
    method Enter(w: nat)
      requires Valid() && Enabled(cfg, Snapshot(), Acquire(w))
      modifies this`vllmFree, this`writeFree, this`workers
      ensures Valid() && Snapshot() == AcquireNext(old(Snapshot()), w)
    {
      if workers[w].AwaitVllm? {
        vllmFree := vllmFree - 1;
        workers := workers[w := Generating(workers[w].idx)];
      } else {
        writeFree := writeFree - 1;
        workers := workers[w := Moving(workers[w].idx)];
      }
    }

    /** An awaited call of a worker returns normally. */
    method Resume(w: nat, locked: bool)
      requires Valid() && Enabled(cfg, Snapshot(), Proceed(w, locked))
      modifies this`vllmFree, this`writeFree, this`workers, this`unfinished, this`completed, this`outcomes, tracker
      ensures Valid() && Snapshot() == ProceedNext(cfg, old(Snapshot()), w, locked)
    {
      var idx := workers[w].idx;
      if workers[w].Generating? {
        vllmFree := vllmFree + 1;
        workers := workers[w := if locked then AwaitLock(idx) else AwaitWrite(idx)];
      } else if workers[w].AwaitLock? {
        workers := workers[w := AwaitWrite(idx)];
      } else if workers[w].Moving? && cfg.validate {
        workers := workers[w := Validating(idx)];
      } else {
        Finish(w);
      }
    }

    /** The `else` and `finally` clauses of the worker. */
    method Finish(w: nat)
      requires Valid() && w < |workers| && (workers[w].Moving? || workers[w].Validating?)
      modifies this`writeFree, this`workers, this`unfinished, this`completed, this`outcomes, tracker
      ensures Valid() && Snapshot() == SucceedNext(old(Snapshot()), w, old(workers[w].idx))
    {
      hide TrailingFailures;
      if tracker != null { tracker.RecordSuccess(); }
      writeFree := writeFree + 1;
      unfinished := unfinished - 1;
      completed, outcomes := completed + [workers[w].idx], outcomes + [true];
      workers := workers[w := Idle];
    }

    /** Leaving an `async with` gives the permit back. */
    method Release(holder: Worker)
      modifies this`vllmFree, this`writeFree
      ensures vllmFree == old(vllmFree) + VllmHeld(holder) && writeFree == old(writeFree) + WriteHeld(holder)
    {
      if holder.Generating? {
        vllmFree := vllmFree + 1;
      } else if holder.Moving? || holder.Validating? {
        writeFree := writeFree + 1;
      }
    }

    /** An awaited call of a worker raises an Exception. */
    method Raise(w: nat)
      requires Valid() && w < |workers| && CanRaise(workers[w])
      modifies this`vllmFree, this`writeFree, this`workers, this`unfinished, this`skippedIndices,
               this`cancelEvent, this`main, this`outcomes, tracker
      ensures Valid() && Snapshot() == FailNext(cfg, old(Snapshot()), w)
    {
      hide TrailingFailures;
      if tracker == null {
        main := Killed;
      } else {
        var tripped := CountFailure(workers[w].idx);
        Retire(w, tripped);
      }
    }

    /** The `except` clause when failures are tolerated. */
    method CountFailure(idx: nat) returns (tripped: bool)
      requires Valid() && tracker != null
      modifies this`skippedIndices, this`cancelEvent, this`outcomes, tracker
      ensures Valid() && skippedIndices == old(skippedIndices) + [idx] && outcomes == old(outcomes) + [false]
      ensures tracker.consecutive == old(tracker.consecutive) + 1
      ensures tripped <==> tracker.consecutive >= cfg.threshold
      ensures cancelEvent == (old(cancelEvent) || tripped)
    {
      skippedIndices := skippedIndices + [idx];
      outcomes := outcomes + [false];
      tripped := tracker.RecordFailure();
      if tripped { cancelEvent := true; }
    }

    /** The `finally` clause once the failure has been counted. */
    method Retire(w: nat, tripped: bool)
      requires w < |workers|
      modifies this`vllmFree, this`writeFree, this`workers, this`unfinished
      ensures workers == old(workers)[w := if tripped then Failed else Idle] && unfinished == old(unfinished) - 1
      ensures vllmFree == old(vllmFree) + VllmHeld(old(workers[w]))
      ensures writeFree == old(writeFree) + WriteHeld(old(workers[w]))
    {
      Release(workers[w]);
      workers := workers[w := if tripped then Failed else Idle];
      unfinished := unfinished - 1;
    }

    /** CancelledError reaches a worker. */
    method Cancel(w: nat)
      requires Valid() && Enabled(cfg, Snapshot(), DeliverCancel(w))
      modifies this`vllmFree, this`writeFree, this`workers, this`unfinished, this`dropped
      ensures Valid() && Snapshot() == CancelNext(old(Snapshot()), w)
    {
      var holder := workers[w];
      Release(holder);
      if Holds(holder) {
        unfinished := unfinished - 1;
        dropped := dropped + [holder.idx];
      }
      workers := workers[w := Cancelled];
    }

    /** The event loop resumes one coroutine: the program only ever reaches states of
        the step system, so every result about those holds of it. */
    method Dispatch(step: Step)
      requires Valid() && Reachable(cfg, Snapshot()) && Enabled(cfg, Snapshot(), step)
      modifies this, tracker
      ensures Valid() && Reachable(cfg, Snapshot())
    {
      ExtendReachable(cfg, Snapshot(), step);
      match step
      case MainStep =>
        MainStretchReachable(cfg, MainNext(cfg, Snapshot()));
        ResumeMain();
      case Get(w) => Take(w);
      case Acquire(w) => Enter(w);
      case Proceed(w, locked) => Resume(w, locked);
      case Fail(w) => Raise(w);
      case DeliverCancel(w) => Cancel(w);
    }
  }
}
