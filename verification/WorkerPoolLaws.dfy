/** What happens to the samples of a run, told by the lists and places they are in: the order in
    which they are fed, the stages each goes through, and what a cancel leaves to be done. */
module WorkerPoolLaws {
  import opened Common
  import opened WorkerPool
  import opened WorkerPoolSafety
  import opened WorkerPoolResults

  // ----- after a cancel -----

  /** From `s` to `t` nothing is fed, what was queued is queued or drained, and samples leave the
      workers only for `completed`, `skipped` or `dropped`. */
  ghost predicate OnlyWindsDown(s: State, t: State) {
    && t.next == s.next
    && s.completed <= t.completed && s.skipped <= t.skipped && s.drained <= t.drained && s.dropped <= t.dropped
    && (forall x :: Queued(t.queue, x) + multiset(t.drained)[x] == Queued(s.queue, x) + multiset(s.drained)[x])
    && (forall x :: InWorkers(t, x) == InWorkers(s, x))
    && |t.completed| + |t.skipped| + |t.dropped| + Holding(t.workers)
       == |s.completed| + |s.skipped| + |s.dropped| + Holding(s.workers)
  }

  /** A worker holds `x`, or held it last. */
  function InWorkers(s: State, x: nat): nat {
    Held(s.workers, x) + multiset(s.completed)[x] + multiset(s.skipped)[x] + multiset(s.dropped)[x]
  }

  lemma WindDownMain(c: Config, s: State)
    requires s.cancelSet && !s.main.Feeding? && PhasesAgree(c, s) && MainEnabled(c, s)
    ensures OnlyWindsDown(s, MainNext(c, s)) && !MainNext(c, s).main.Feeding?
  {
    forall x { QueueAppend(s.queue, Sentinel, x); }
  }

  lemma WindDownGet(c: Config, s: State, w: nat)
    requires s.cancelSet && Enabled(c, s, Get(w))
    ensures OnlyWindsDown(s, GetNext(s, w))
  {
    hide Held, Holding;
    HoldFacts(s.workers, w, GetNext(s, w).workers[w]);
  }

  /** A worker goes on with what it has. */
  lemma WindDownKept(s: State, t: State, w: nat)
    requires w < |s.workers| && |t.workers| == |s.workers| && t.workers == s.workers[w := t.workers[w]]
    requires Holds(t.workers[w]) == Holds(s.workers[w]) && (Holds(t.workers[w]) ==> t.workers[w].idx == s.workers[w].idx)
    requires t.next == s.next && t.queue == s.queue && t.drained == s.drained
    requires t.completed == s.completed && t.skipped == s.skipped && t.dropped == s.dropped
    ensures OnlyWindsDown(s, t)
  {
    hide Held, Holding, Queued;
    HoldFacts(s.workers, w, t.workers[w]);
  }

  /** A worker lets go of its sample, which goes to the end of one of three lists. */
  lemma WindDownLetGo(s: State, t: State, w: nat, x: nat)
    requires w < |s.workers| && |t.workers| == |s.workers| && t.workers == s.workers[w := t.workers[w]]
    requires Holds(s.workers[w]) && s.workers[w].idx == x && !Holds(t.workers[w])
    requires t.next == s.next && t.queue == s.queue && t.drained == s.drained
    requires || (t.completed == s.completed + [x] && t.skipped == s.skipped && t.dropped == s.dropped)
             || (t.completed == s.completed && t.skipped == s.skipped + [x] && t.dropped == s.dropped)
             || (t.completed == s.completed && t.skipped == s.skipped && t.dropped == s.dropped + [x])
    ensures OnlyWindsDown(s, t)
  {
    hide Held, Holding, Queued;
    HoldFacts(s.workers, w, t.workers[w]);
  }

  lemma WindDownWorker(c: Config, s: State, step: Step)
    requires Enabled(c, s, step) && (step.Acquire? || step.Proceed? || step.Fail? || step.DeliverCancel?)
    ensures OnlyWindsDown(s, Apply(c, s, step))
  {
    hide OnlyWindsDown;
    var t := Apply(c, s, step);
    if Holds(s.workers[step.w]) && !Holds(t.workers[step.w]) {
      WindDownLetGo(s, t, step.w, s.workers[step.w].idx);
    } else {
      WindDownKept(s, t, step.w);
    }
  }

  lemma WindDownStep(c: Config, s: State, step: Step)
    requires s.cancelSet && !s.main.Feeding? && PhasesAgree(c, s) && Enabled(c, s, step)
    ensures OnlyWindsDown(s, Apply(c, s, step))
  {
    hide OnlyWindsDown;
    match step
    case MainStep => WindDownMain(c, s);
    case Get(w) => WindDownGet(c, s, w);
    case _ => WindDownWorker(c, s, step);
  }

  /** Cancel is never set while the feed loop runs. */
  lemma {:induction false} NotFeeding(c: Config, run: seq<State>, i: nat)
    requires IsRun(c, run) && i < |run|
    ensures run[i].cancelSet ==> !run[i].main.Feeding?
  {
    if i > 0 {
      NotFeeding(c, run, i - 1);
      assert Next(c, run[i - 1], run[i - 1 + 1]);
    }
  }

  lemma WindDownTrans(s: State, t: State, u: State)
    requires OnlyWindsDown(s, t) && OnlyWindsDown(t, u)
    ensures OnlyWindsDown(s, u)
  {
    hide Held, Holding, Queued, InWorkers;
  }

  lemma WindDownNone(s: State)
    ensures OnlyWindsDown(s, s)
  {}

  lemma StepTo(c: Config, run: seq<State>, j: nat) returns (step: Step)
    requires IsRun(c, run) && 0 < j < |run|
    ensures Enabled(c, run[j - 1], step) && run[j] == Apply(c, run[j - 1], step)
  {
    assert Next(c, run[j - 1], run[j - 1 + 1]);
    step :| Enabled(c, run[j - 1], step) && run[j] == Apply(c, run[j - 1], step);
  }

  lemma WindDownTo(c: Config, run: seq<State>, j: nat)
    requires IsRun(c, run) && 0 < j < |run| && run[j - 1].cancelSet
    ensures OnlyWindsDown(run[j - 1], run[j])
  {
    hide Enabled, Apply, OnlyWindsDown, PhasesAgree;
    PhasesAt(c, run, j - 1);
    NotFeeding(c, run, j - 1);
    var step := StepTo(c, run, j);
    WindDownStep(c, run[j - 1], step);
  }

  /** From the moment cancel is set the run only winds down. */
  lemma {:induction false} AfterCancel(c: Config, run: seq<State>, i: nat, j: nat)
    requires IsRun(c, run) && i <= j < |run| && run[i].cancelSet
    ensures run[j].cancelSet && OnlyWindsDown(run[i], run[j])
    decreases j - i
  {
    hide OnlyWindsDown, IsRun;
    CancelIsForever(c, run, i, j);
    if i == j {
      WindDownNone(run[i]);
    } else {
      AfterCancel(c, run, i, j - 1);
      WindDownTo(c, run, j);
      WindDownTrans(run[i], run[j - 1], run[j]);
    }
  }

  lemma {:induction false} HolderOf(ws: seq<Worker>, x: nat) returns (w: nat)
    requires Held(ws, x) > 0
    ensures w < |ws| && Holds(ws[w]) && ws[w].idx == x
  {
    if HeldBy(ws[0], x) > 0 {
      w := 0;
    } else {
      w := HolderOf(ws[1..], x);
      w := w + 1;
    }
  }

  lemma PrefixCounts(xs: seq<nat>, ys: seq<nat>, x: nat)
    requires xs <= ys
    ensures multiset(xs)[x] <= multiset(ys)[x] && |xs| <= |ys|
  {
    assert ys == xs + ys[|xs|..];
  }

  /** A sample saved or skipped since a cancel was held by a worker when it came. */
  lemma SavedSinceWasHeld(c: Config, run: seq<State>, i: nat, j: nat, x: nat) returns (w: nat)
    requires IsRun(c, run) && i <= j < |run| && run[i].cancelSet
    requires x in run[j].completed || x in run[j].skipped
    requires x !in run[i].completed && x !in run[i].skipped
    ensures w < |run[i].workers| && Holds(run[i].workers[w]) && run[i].workers[w].idx == x
  {
    AfterCancel(c, run, i, j);
    assert InWorkers(run[j], x) == InWorkers(run[i], x);
    PrefixCounts(run[i].dropped, run[j].dropped, x);
    w := HolderOf(run[i].workers, x);
  }

  /** So at most as many samples are saved or skipped after a cancel as workers held then. */
  lemma FewSavedSince(c: Config, run: seq<State>, i: nat, j: nat)
    requires IsRun(c, run) && i <= j < |run| && run[i].cancelSet
    ensures |run[j].completed| - |run[i].completed| + |run[j].skipped| - |run[i].skipped| <= Holding(run[i].workers)
  {
    AfterCancel(c, run, i, j);
  }

  /** A sample queued when a cancel comes is never started: it stays queued or is drained. */
  lemma QueuedAreDrained(c: Config, run: seq<State>, i: nat, j: nat, x: nat)
    requires IsRun(c, run) && i <= j < |run| && run[i].cancelSet && Sample(x) in run[i].queue
    ensures Sample(x) in run[j].queue || x in run[j].drained
    ensures run[j].next == run[i].next
  {
    AfterCancel(c, run, i, j);
    QueuedIffIn(run[i].queue, x);
    QueuedIffIn(run[j].queue, x);
  }

  lemma {:induction false} QueuedIffIn(q: seq<Item>, x: nat)
    ensures Queued(q, x) > 0 <==> Sample(x) in q
  {
    if q != [] {
      QueuedIffIn(q[1..], x);
      assert q == [q[0]] + q[1..];
    }
  }

  /** Nothing is saved, skipped or taken. */
  predicate Idles(s: State, t: State) {
    && t.queue == s.queue && t.completed == s.completed && t.skipped == s.skipped && t.drained == s.drained
    && t.next == s.next
  }

  lemma IdlesStep(c: Config, s: State, step: Step)
    requires s.cancelRequested && PhasesAgree(c, s) && Enabled(c, s, step)
    ensures Apply(c, s, step).cancelRequested && Idles(s, Apply(c, s, step))
  {}

  /** Once the shutdown has cancelled the workers, nothing more is saved, skipped or taken. */
  lemma {:induction false} AfterShutdown(c: Config, run: seq<State>, i: nat, j: nat)
    requires IsRun(c, run) && i <= j < |run| && run[i].cancelRequested
    ensures run[j].cancelRequested && Idles(run[i], run[j])
    decreases j - i
  {
    hide IsRun;
    if i < j {
      AfterShutdown(c, run, i, j - 1);
      IdlesTo(c, run, j);
    }
  }

  lemma IdlesTo(c: Config, run: seq<State>, j: nat)
    requires IsRun(c, run) && 0 < j < |run| && run[j - 1].cancelRequested
    ensures run[j].cancelRequested && Idles(run[j - 1], run[j])
  {
    hide Enabled, Apply, Idles, PhasesAgree;
    PhasesAt(c, run, j - 1);
    var step := StepTo(c, run, j);
    IdlesStep(c, run[j - 1], step);
  }

  lemma PhasesAt(c: Config, run: seq<State>, i: nat)
    requires IsRun(c, run) && i < |run|
    ensures PhasesAgree(c, run[i])
  {
    InvRun(c, run, i);
  }

  // ----- samples are taken in the order they were given -----

  function SamplesIn(q: seq<Item>): seq<nat> {
    if q == [] then [] else (if q[0].Sample? then [q[0].idx] else []) + SamplesIn(q[1..])
  }

  lemma {:induction false} SamplesInAppend(q: seq<Item>, y: Item)
    ensures SamplesIn(q + [y]) == SamplesIn(q) + if y.Sample? then [y.idx] else []
  {
    if q == [] {
      assert q + [y] == [y];
    } else {
      var head, last := if q[0].Sample? then [q[0].idx] else [], if y.Sample? then [y.idx] else [];
      assert (q + [y])[1..] == q[1..] + [y] && (q + [y])[0] == q[0];
      SamplesInAppend(q[1..], y);
      var rest := SamplesIn(q[1..]);
      assert SamplesIn(q + [y]) == head + (rest + last) && SamplesIn(q) == head + rest;
      hide SamplesIn;
      assert head + (rest + last) == head + rest + last;
    }
  }

  /** The queue holds the samples fed last, oldest first. */
  predicate InOrder(c: Config, s: State) {
    && s.next <= |c.toProcess| && |SamplesIn(s.queue)| <= s.next
    && SamplesIn(s.queue) == c.toProcess[s.next - |SamplesIn(s.queue)|..s.next]
  }

  lemma InOrderFed(c: Config, s: State)
    requires InOrder(c, s) && s.next < |c.toProcess|
    ensures InOrder(c, PutSample(c, s))
  {
    var samples, x := SamplesIn(s.queue), c.toProcess[s.next];
    SamplesInAppend(s.queue, Sample(x));
    hide SamplesIn;
    assert c.toProcess[s.next - |samples|..s.next + 1] == c.toProcess[s.next - |samples|..s.next] + [x];
  }

  lemma InOrderSentinel(c: Config, s: State)
    requires InOrder(c, s)
    ensures InOrder(c, PutSentinel(s))
  {
    SamplesInAppend(s.queue, Sentinel);
  }

  lemma InOrderMain(c: Config, s: State)
    requires InOrder(c, s) && MainEnabled(c, s)
    ensures InOrder(c, MainNext(c, s))
  {
    if s.next < |c.toProcess| { InOrderFed(c, s); }
    InOrderSentinel(c, s);
    hide SamplesIn, PutSample, PutSentinel;
  }

  lemma InOrderGet(c: Config, s: State, w: nat)
    requires InOrder(c, s) && Enabled(c, s, Get(w))
    ensures InOrder(c, GetNext(s, w))
  {}

  lemma SameQueue(c: Config, s: State, step: Step)
    requires Enabled(c, s, step) && !step.MainStep? && !step.Get?
    ensures Apply(c, s, step).queue == s.queue && Apply(c, s, step).next == s.next
  {}

  lemma InOrderStep(c: Config, s: State, step: Step)
    requires InOrder(c, s) && Enabled(c, s, step)
    ensures InOrder(c, Apply(c, s, step))
  {
    match step
    case MainStep => InOrderMain(c, s);
    case Get(w) => InOrderGet(c, s, w);
    case _ => SameQueue(c, s, step);
  }

  lemma {:induction false} FedInOrder(c: Config, run: seq<State>, i: nat)
    requires IsRun(c, run) && i < |run|
    ensures InOrder(c, run[i])
  {
    if i > 0 {
      FedInOrder(c, run, i - 1);
      var step := StepTo(c, run, i);
      InOrderStep(c, run[i - 1], step);
    }
  }

  // ----- the stages of a sample -----

  /** How a worker gets where it is. */
  predicate Comes(c: Config, from: Worker, to: Worker) {
    match to
    case Idle => CanRaise(from)
    case AwaitVllm(_) => from.Idle?
    case Generating(x) => from == AwaitVllm(x)
    case AwaitLock(x) => from == Generating(x)
    case AwaitWrite(x) => from == Generating(x) || from == AwaitLock(x)
    case Moving(x) => from == AwaitWrite(x)
    case Validating(x) => from == Moving(x) && c.validate
    case Exited => from.Idle?
    case Failed => CanRaise(from)
    case Cancelled => !Done(from)
  }

  lemma OneStageGet(c: Config, s: State, v: nat, w: nat)
    requires Enabled(c, s, Get(v)) && w < |s.workers|
    ensures var t := GetNext(s, v);
      |t.workers| == |s.workers| && (t.workers[w] == s.workers[w] || Comes(c, s.workers[w], t.workers[w]))
  {}

  lemma OneStageProceed(c: Config, s: State, v: nat, locked: bool, w: nat)
    requires Enabled(c, s, Proceed(v, locked)) && w < |s.workers|
    ensures var t := ProceedNext(c, s, v, locked);
      |t.workers| == |s.workers| && (t.workers[w] == s.workers[w] || Comes(c, s.workers[w], t.workers[w]))
  {}

  lemma OneStageFail(c: Config, s: State, v: nat, w: nat)
    requires Enabled(c, s, Fail(v)) && w < |s.workers|
    ensures var t := FailNext(c, s, v);
      |t.workers| == |s.workers| && (t.workers[w] == s.workers[w] || Comes(c, s.workers[w], t.workers[w]))
  {}

  /** Each step moves at most one worker, by one stage. */
  lemma OneStage(c: Config, s: State, step: Step, w: nat)
    requires Enabled(c, s, step) && w < |s.workers|
    ensures |Apply(c, s, step).workers| == |s.workers|
    ensures Apply(c, s, step).workers[w] == s.workers[w] || Comes(c, s.workers[w], Apply(c, s, step).workers[w])
  {
    match step
    case MainStep =>
    case Get(v) => OneStageGet(c, s, v, w);
    case Acquire(v) =>
    case Proceed(v, locked) => OneStageProceed(c, s, v, locked, w);
    case Fail(v) => OneStageFail(c, s, v, w);
    case DeliverCancel(v) =>
  }

  /** The state a worker was in before it came to its present one. */
  lemma {:induction false} CameFrom(c: Config, run: seq<State>, i: nat, w: nat) returns (k: nat)
    requires IsRun(c, run) && i < |run| && w < |run[i].workers| && !run[i].workers[w].Idle?
    ensures k < i && w < |run[k].workers| && Comes(c, run[k].workers[w], run[i].workers[w])
  {
    hide Enabled, Apply, Comes;
    if i == 0 {
      IdleWorkersFacts(2 * c.concurrency);
      assert false;
    } else {
      var step := StepTo(c, run, i);
      SameWorkers(c, run, i - 1, i);
      OneStage(c, run[i - 1], step, w);
      if run[i - 1].workers[w] == run[i].workers[w] { k := CameFrom(c, run, i - 1, w); } else { k := i - 1; }
    }
  }

  lemma SameWorkers(c: Config, run: seq<State>, i: nat, j: nat)
    requires IsRun(c, run) && i < |run| && j < |run|
    ensures |run[i].workers| == |run[j].workers|
  {
    InvRun(c, run, i);
    InvRun(c, run, j);
  }

  /** A worker that lets a sample go as saved was in its last stage. */
  lemma SavedFromLast(c: Config, s: State, step: Step)
    requires Enabled(c, s, step) && Apply(c, s, step).completed != s.completed
    ensures step.Proceed? && step.w < |s.workers|
    ensures s.workers[step.w].Validating? || (s.workers[step.w].Moving? && !c.validate)
    ensures Apply(c, s, step).completed == s.completed + [s.workers[step.w].idx]
  {}

  lemma {:induction false} SavedBy(c: Config, run: seq<State>, j: nat, x: nat) returns (k: nat, w: nat)
    requires IsRun(c, run) && j < |run| && x in run[j].completed
    ensures k < j && w < |run[k].workers|
    ensures run[k].workers[w] == Validating(x) || (run[k].workers[w] == Moving(x) && !c.validate)
  {
    hide Enabled, Apply;
    if j > 0 && x in run[j - 1].completed {
      k, w := SavedBy(c, run, j - 1, x);
    } else {
      assert j > 0;
      var step := StepTo(c, run, j);
      SavedFromLast(c, run[j - 1], step);
      k, w := j - 1, step.w;
    }
  }

  /** Every saved sample went through all stages in order, in one worker: it was generated under
      a permit, moved under another, and loaded and checked if and only if `validate` is set. */
  lemma SavedStages(c: Config, run: seq<State>, j: nat, x: nat) returns (w: nat, at: seq<nat>)
    requires IsRun(c, run) && j < |run| && x in run[j].completed
    ensures |at| == 5 && at[0] < at[1] < at[2] < at[3] <= at[4] < j
    ensures forall k :: 0 <= k < 5 ==> at[k] < |run| && w < |run[at[k]].workers|
    ensures run[at[0]].workers[w] == AwaitVllm(x) && run[at[1]].workers[w] == Generating(x)
    ensures run[at[2]].workers[w] == AwaitWrite(x) && run[at[3]].workers[w] == Moving(x)
    ensures if c.validate then run[at[4]].workers[w] == Validating(x) else at[4] == at[3]
  {
    hide IsRun;
    var end: nat;
    end, w := SavedBy(c, run, j, x);
    var moved, queued, made := end, 0, 0;
    if run[end].workers[w].Validating? { moved := CameFrom(c, run, end, w); }
    queued := CameFrom(c, run, moved, w);
    made := CameFrom(c, run, queued, w);
    if run[made].workers[w].AwaitLock? { made := CameFrom(c, run, made, w); }
    var asked := CameFrom(c, run, made, w);
    at := [asked, made, queued, moved, end];
  }
}
