/** The offline hidden-states run as a step system.

    One step is the code a coroutine runs between two awaits.  While the main
    coroutine is between awaits (`MainBusy`) no worker can move, as asyncio runs
    one coroutine at a time.  Network calls, file moves and validation either
    finish (`Proceed`) or raise (`Fail`), as the environment chooses. */
module WorkerPool {

  datatype Item = Sample(idx: nat) | Sentinel

  /** Where a worker coroutine is suspended. */
  datatype Worker =
    | Idle                     // in queue.get()
    | AwaitVllm(idx: nat)      // entering `async with vllm_semaphore`
    | Generating(idx: nat)     // holds a vllm permit
    | AwaitLock(idx: nat)      // waiting for the .lock file, no permit
    | AwaitWrite(idx: nat)     // entering `async with write_semaphore`
    | Moving(idx: nat)         // holds a write permit, in shutil.move
    | Validating(idx: nat)     // holds a write permit, in _load_and_check
    | Exited                   // returned after a sentinel
    | Failed                   // raised RuntimeError
    | Cancelled                // CancelledError was delivered

  /** Where the main coroutine is. */
  datatype Main =
    | Feeding                  // head of the feed loop
    | FeedAsleep               // queue was full, in asyncio.sleep
    | Testing                  // at the cancel test of _shutdown_workers
    | PutSentinels             // head of the sentinel loop
    | SentinelAsleep           // blocked in queue.put(None)
    | Gathering                // in asyncio.gather
    | Returned
    | Raised
    | Killed                   // os._exit(1) of --fail-on-error

  datatype Config = Config(
    concurrency: nat,
    toProcess: seq<nat>,
    threshold: int,            // max_consecutive_errors, unconstrained in the CLI
    failOnError: bool,
    validate: bool)

  /** `completed`, `drained`, `dropped` and `outcomes` record history; every
      other field is a variable of the program. */
  datatype State = State(
    queue: seq<Item>,
    unfinished: int,           // the queue's unfinished-task counter
    workers: seq<Worker>,
    vllmFree: int,
    writeFree: int,
    next: nat,                 // samples put on the queue so far
    sentinelsPut: nat,
    main: Main,
    cancelSet: bool,
    cancelRequested: bool,     // w.cancel() was called on every live worker
    consecutive: nat,
    skipped: seq<nat>,
    completed: seq<nat>,
    drained: seq<nat>,         // taken and discarded after cancel_event
    dropped: seq<nat>,         // held by a worker when it was cancelled
    outcomes: seq<bool>)       // success or failure, in completion order

  datatype Step =
    | MainStep
    | Get(w: nat)
    | Acquire(w: nat)
    | Proceed(w: nat, locked: bool)
    | Fail(w: nat)
    | DeliverCancel(w: nat)

  predicate MainBusy(m: Main) { m.Feeding? || m.Testing? || m.PutSentinels? }

  predicate Over(m: Main) { m.Returned? || m.Raised? || m.Killed? }

  predicate Done(w: Worker) { w.Exited? || w.Failed? || w.Cancelled? }

  predicate AllDone(ws: seq<Worker>) { forall i :: 0 <= i < |ws| ==> Done(ws[i]) }

  predicate AnyFailed(ws: seq<Worker>) { exists i :: 0 <= i < |ws| && ws[i].Failed? }

  /** asyncio.Queue(maxsize=4*concurrency): a maxsize of zero means unbounded. */
  predicate Full(c: Config, q: seq<Item>) { c.concurrency > 0 && |q| >= 4 * c.concurrency }

  function IdleWorkers(n: nat): seq<Worker> {
    if n == 0 then [] else [Idle] + IdleWorkers(n - 1)
  }

  function Init(c: Config): State {
    State([], 0, IdleWorkers(2 * c.concurrency), c.concurrency, c.concurrency, 0, 0, Feeding,
          false, false, 0, [], [], [], [], [])
  }

  // ----- the main coroutine -----

  predicate MainEnabled(c: Config, s: State) {
    match s.main
    case Feeding | Testing | PutSentinels => true
    case FeedAsleep => s.cancelSet || !Full(c, s.queue)
    case SentinelAsleep => !Full(c, s.queue)
    case Gathering => AllDone(s.workers)
    case _ => false
  }

  function PutSample(c: Config, s: State): State
    requires s.next < |c.toProcess|
  {
    s.(queue := s.queue + [Sample(c.toProcess[s.next])], unfinished := s.unfinished + 1,
       next := s.next + 1, main := Feeding)
  }

  function PutSentinel(s: State): State {
    s.(queue := s.queue + [Sentinel], unfinished := s.unfinished + 1,
       sentinelsPut := s.sentinelsPut + 1, main := PutSentinels)
  }

  function MainNext(c: Config, s: State): State
    requires MainEnabled(c, s)
  {
    match s.main
    case Feeding =>
      if s.next >= |c.toProcess| || s.cancelSet then s.(main := Testing)
      else if Full(c, s.queue) then s.(main := FeedAsleep)
      else PutSample(c, s)
    case FeedAsleep =>
      if s.next >= |c.toProcess| || s.cancelSet then s.(main := Testing) else PutSample(c, s)
    case Testing =>
      if s.cancelSet then s.(cancelRequested := true, main := Gathering)
      else s.(main := PutSentinels)
    case PutSentinels =>
      if s.sentinelsPut >= |s.workers| then s.(main := Gathering)
      else if Full(c, s.queue) then s.(main := SentinelAsleep)
      else PutSentinel(s)
    case SentinelAsleep => PutSentinel(s)
    case Gathering => s.(main := if AnyFailed(s.workers) then Raised else Returned)
    case _ => s
  }

  // ----- the workers -----

  predicate WorkerEnabled(s: State, w: nat) {
    w < |s.workers| && !MainBusy(s.main) && !Over(s.main)
  }

  /** Vllm and write permits held in a worker state. */
  function VllmHeld(w: Worker): nat { if w.Generating? then 1 else 0 }

  function WriteHeld(w: Worker): nat { if w.Moving? || w.Validating? then 1 else 0 }

  /** Worker `w` moves on to `to`, giving its permits back on leaving the `async with`. */
  function Leave(s: State, w: nat, to: Worker): State
    requires w < |s.workers|
  {
    s.(workers := s.workers[w := to],
       vllmFree := s.vllmFree + VllmHeld(s.workers[w]),
       writeFree := s.writeFree + WriteHeld(s.workers[w]))
  }

  function GetNext(s: State, w: nat): State
    requires w < |s.workers| && |s.queue| > 0
  {
    var rest := s.(queue := s.queue[1..]);
    match s.queue[0]
    case Sentinel => rest.(unfinished := s.unfinished - 1, workers := s.workers[w := Exited])
    case Sample(idx) =>
      if s.cancelSet then rest.(unfinished := s.unfinished - 1, drained := s.drained + [idx])
      else rest.(workers := s.workers[w := AwaitVllm(idx)])
  }

  function AcquireNext(s: State, w: nat): State
    requires w < |s.workers|
  {
    match s.workers[w]
    case AwaitVllm(idx) => s.(vllmFree := s.vllmFree - 1, workers := s.workers[w := Generating(idx)])
    case AwaitWrite(idx) => s.(writeFree := s.writeFree - 1, workers := s.workers[w := Moving(idx)])
    case _ => s
  }

  /** The `else` and `finally` clauses: the sample is saved. */
  function SucceedNext(s: State, w: nat, idx: nat): State
    requires w < |s.workers|
  {
    Leave(s, w, Idle).(
      unfinished := s.unfinished - 1,
      consecutive := 0,
      completed := s.completed + [idx],
      outcomes := s.outcomes + [true])
  }

  function ProceedNext(c: Config, s: State, w: nat, locked: bool): State
    requires w < |s.workers|
  {
    match s.workers[w]
    case Generating(idx) =>
      Leave(s, w, if locked then AwaitLock(idx) else AwaitWrite(idx))
    case AwaitLock(idx) => s.(workers := s.workers[w := AwaitWrite(idx)])
    case Moving(idx) =>
      if c.validate then s.(workers := s.workers[w := Validating(idx)]) else SucceedNext(s, w, idx)
    case Validating(idx) => SucceedNext(s, w, idx)
    case _ => s
  }

  predicate CanRaise(w: Worker) { w.Generating? || w.AwaitLock? || w.Moving? || w.Validating? }

  /** The `except` and `finally` clauses when failures are tolerated. */
  function SkipNext(s: State, w: nat, trips: bool): State
    requires w < |s.workers| && CanRaise(s.workers[w])
  {
    Leave(s, w, if trips then Failed else Idle).(
      unfinished := s.unfinished - 1,
      consecutive := s.consecutive + 1,
      skipped := s.skipped + [s.workers[w].idx],
      cancelSet := s.cancelSet || trips,
      outcomes := s.outcomes + [false])
  }

  function FailNext(c: Config, s: State, w: nat): State
    requires w < |s.workers| && CanRaise(s.workers[w])
  {
    if c.failOnError then s.(main := Killed) else SkipNext(s, w, s.consecutive + 1 >= c.threshold)
  }

  predicate Holds(w: Worker) { !w.Idle? && !Done(w) }

  /** CancelledError is no Exception: only `finally` runs. */
  function CancelNext(s: State, w: nat): State
    requires w < |s.workers|
  {
    var freed := Leave(s, w, Cancelled);
    if Holds(s.workers[w])
    then freed.(unfinished := s.unfinished - 1, dropped := s.dropped + [s.workers[w].idx])
    else freed
  }

  // ----- the step relation -----

  predicate Enabled(c: Config, s: State, step: Step) {
    match step
    case MainStep => MainEnabled(c, s)
    case Get(w) => WorkerEnabled(s, w) && !s.cancelRequested && s.workers[w].Idle? && |s.queue| > 0
    case Acquire(w) =>
      WorkerEnabled(s, w) && !s.cancelRequested &&
      ((s.workers[w].AwaitVllm? && s.vllmFree > 0) || (s.workers[w].AwaitWrite? && s.writeFree > 0))
    case Proceed(w, _) => WorkerEnabled(s, w) && !s.cancelRequested && CanRaise(s.workers[w])
    case Fail(w) => WorkerEnabled(s, w) && !s.cancelRequested && CanRaise(s.workers[w])
    case DeliverCancel(w) => WorkerEnabled(s, w) && s.cancelRequested && !Done(s.workers[w])
  }

  function Apply(c: Config, s: State, step: Step): State
    requires Enabled(c, s, step)
  {
    match step
    case MainStep => MainNext(c, s)
    case Get(w) => GetNext(s, w)
    case Acquire(w) => AcquireNext(s, w)
    case Proceed(w, locked) => ProceedNext(c, s, w, locked)
    case Fail(w) => FailNext(c, s, w)
    case DeliverCancel(w) => CancelNext(s, w)
  }

  ghost predicate Next(c: Config, s: State, t: State) {
    exists step :: Enabled(c, s, step) && t == Apply(c, s, step)
  }

  /** A run is any finite prefix of an execution. */
  ghost predicate IsRun(c: Config, run: seq<State>) {
    && |run| > 0
    && run[0] == Init(c)
    && forall i :: 0 <= i < |run| - 1 ==> Next(c, run[i], run[i + 1])
  }

  ghost predicate Reachable(c: Config, s: State) {
    exists run :: IsRun(c, run) && run[|run| - 1] == s
  }

  /** The program has ended, one way or another. */
  predicate Final(s: State) { Over(s.main) }
}
