/**
 The thread pool as the atomic steps of its workers and of the threads that call
 `enqueueTask` and `stop`, in any interleaving.

 `stop` clears `m_running` without the queue's mutex, so it may come between any two
 steps of a worker.
 */
module ThreadPools {

  type Task = int

  /** Where a worker is in `workerThread`. */
  datatype Worker =
    | AtTop    // before the test of the `while`
    | InLoop   // inside the loop, without the mutex, or waiting on the condition variable
    | Woken    // holds the mutex, `wait` has returned
    | Taking   // holds the mutex, has not returned at the exit test
    | Working  // runs its task, without the mutex
    | Gone

  /**
   `started` and `enqueued` record the tasks taken and pushed so far; `fault` an access
   to the front of an empty queue.
   */
  datatype Pool = Pool(
    queue: seq<Task>, running: bool, locked: bool, workers: seq<Worker>,
    enqueued: seq<Task>, started: seq<Task>, fault: bool)

  datatype Step =
    | Enqueue(task: Task)
    | Stop
    | Test(w: nat)
    | Wake(w: nat)
    | Decide(w: nat)
    | Take(w: nat)
    | Finish(w: nat)

  predicate At(p: Pool, w: nat, pc: Worker) { w < |p.workers| && p.workers[w] == pc }

  /**
   A step that may happen now: the mutex is free for who locks it, and `wait` returns
   only when its predicate holds.
   */
  predicate Enabled(p: Pool, s: Step) {
    match s
    case Enqueue(_) => !p.locked
    case Stop => true
    case Test(w) => At(p, w, AtTop)
    case Wake(w) => At(p, w, InLoop) && !p.locked && (p.queue != [] || !p.running)
    case Decide(w) => At(p, w, Woken)
    case Take(w) => At(p, w, Taking)
    case Finish(w) => At(p, w, Working)
  }

  function To(p: Pool, w: nat, pc: Worker): Pool
    requires w < |p.workers|
  {
    p.(workers := p.workers[w := pc])
  }

  function Next(p: Pool, s: Step): Pool
    requires Enabled(p, s)
  {
    match s
    case Enqueue(task) => p.(queue := p.queue + [task], enqueued := p.enqueued + [task])
    case Stop => p.(running := false)
    case Test(w) => To(p, w, if p.running then InLoop else Gone)
    case Wake(w) => To(p, w, Woken).(locked := true)
    case Decide(w) => if !p.running && p.queue == [] then To(p, w, Gone).(locked := false) else To(p, w, Taking)
    case Take(w) =>
      if p.queue == [] then p.(fault := true)
      else To(p, w, Working).(queue := p.queue[1..], started := p.started + [p.queue[0]], locked := false)
    case Finish(w) => To(p, w, AtTop)
  }

  /** The constructor: every worker about to test `m_running`. */
  function Initial(numThreads: nat): Pool {
    Pool([], true, false, seq(numThreads, i => AtTop), [], [], false)
  }

  /** `ps` are the states of a run by `steps`. */
  predicate Run(ps: seq<Pool>, steps: seq<Step>) {
    |ps| == |steps| + 1 && forall i | 0 <= i < |steps| :: Enabled(ps[i], steps[i]) && ps[i + 1] == Next(ps[i], steps[i])
  }

  // ----- what every step keeps -----

  ghost predicate Holds(pc: Worker) { pc == Woken || pc == Taking }

  /** The mutex is held by exactly the worker that is in its critical section. */
  ghost predicate Exclusive(p: Pool) {
    (forall v, w | 0 <= v < w < |p.workers| :: !(Holds(p.workers[v]) && Holds(p.workers[w]))) &&
    forall w | 0 <= w < |p.workers| && Holds(p.workers[w]) :: p.locked
  }

  /** Who is past `wait` sees a task or the end of the run, who is past the exit test a task. */
  ghost predicate Ready(p: Pool) {
    (forall w | 0 <= w < |p.workers| && p.workers[w] == Woken :: p.queue != [] || !p.running) &&
    forall w | 0 <= w < |p.workers| && p.workers[w] == Taking :: p.queue != []
  }

  ghost predicate Inv(p: Pool) {
    p.started + p.queue == p.enqueued && !p.fault && Exclusive(p) && Ready(p)
  }

  lemma {:induction false} StepKeepsOrder(p: Pool, s: Step)
    requires Inv(p) && Enabled(p, s)
    ensures var q := Next(p, s); q.started + q.queue == q.enqueued && !q.fault
  {
    match s
    case Take(w) => assert p.queue == [p.queue[0]] + p.queue[1..];
    case Enqueue(task) => assert p.started + (p.queue + [task]) == (p.started + p.queue) + [task];
    case _ =>
  }

  lemma {:induction false} StepKeepsMutex(p: Pool, s: Step)
    requires Exclusive(p) && Enabled(p, s)
    ensures Exclusive(Next(p, s))
  {
  }

  lemma {:induction false} StepKeepsReady(p: Pool, s: Step)
    requires Exclusive(p) && Ready(p) && Enabled(p, s)
    ensures Ready(Next(p, s))
  {
  }

  lemma {:induction false} StepKeepsInv(p: Pool, s: Step)
    requires Inv(p) && Enabled(p, s)
    ensures Inv(Next(p, s))
  {
    StepKeepsOrder(p, s);
    StepKeepsMutex(p, s);
    StepKeepsReady(p, s);
  }

  lemma {:induction false} RunKeepsInv(ps: seq<Pool>, steps: seq<Step>, i: nat)
    requires Run(ps, steps) && Inv(ps[0]) && i < |ps|
    ensures Inv(ps[i])
  {
    if i > 0 {
      RunKeepsInv(ps, steps, i - 1);
      StepKeepsInv(ps[i - 1], steps[i - 1]);
    }
  }

  /**
   In every interleaving: the tasks started and then the tasks queued are the tasks
   enqueued, in order, and no worker takes from an empty queue.
   */
  lemma {:induction false} FirstInFirstOut(numThreads: nat, ps: seq<Pool>, steps: seq<Step>, i: nat)
    requires Run(ps, steps) && ps[0] == Initial(numThreads) && i < |ps|
    ensures ps[i].started + ps[i].queue == ps[i].enqueued && !ps[i].fault
  {
    RunKeepsInv(ps, steps, i);
  }

  // ----- after stop -----

  ghost function Inside(workers: seq<Worker>): nat {
    if workers == [] then 0
    else (if workers[0] in {InLoop, Woken, Taking} then 1 else 0) + Inside(workers[1..])
  }

  lemma {:induction false} InsideAt(workers: seq<Worker>, w: nat, pc: Worker)
    requires w < |workers|
    ensures Inside(workers) <= |workers|
    ensures Inside(workers[w := pc]) + (if workers[w] in {InLoop, Woken, Taking} then 1 else 0)
         == Inside(workers) + (if pc in {InLoop, Woken, Taking} then 1 else 0)
    decreases |workers|
  {
    InsideBound(workers);
    if w > 0 {
      InsideAt(workers[1..], w - 1, pc);
      assert workers[w := pc][1..] == workers[1..][w - 1 := pc];
    } else {
      assert workers[w := pc][1..] == workers[1..];
    }
  }

  lemma {:induction false} InsideBound(workers: seq<Worker>)
    ensures Inside(workers) <= |workers|
    decreases |workers|
  {
    if workers != [] { InsideBound(workers[1..]); }
  }

  lemma {:induction false} StepAfterStop(p: Pool, s: Step)
    requires Enabled(p, s) && !p.running
    ensures var q := Next(p, s);
            !q.running && |q.workers| == |p.workers| && |p.started| <= |q.started| &&
            |q.started| + Inside(q.workers) <= |p.started| + Inside(p.workers)
  {
    match s
    case Test(w) => InsideAt(p.workers, w, Gone);
    case Wake(w) => InsideAt(p.workers, w, Woken);
    case Decide(w) => InsideAt(p.workers, w, if p.queue == [] then Gone else Taking);
    case Take(w) => InsideAt(p.workers, w, Working);
    case Finish(w) => InsideAt(p.workers, w, AtTop);
    case _ =>
  }

  lemma {:induction false} RunAfterStop(ps: seq<Pool>, steps: seq<Step>, i: nat, j: nat)
    requires Run(ps, steps) && i <= j < |ps| && !ps[i].running
    ensures !ps[j].running && |ps[j].workers| == |ps[i].workers| && |ps[i].started| <= |ps[j].started|
    ensures |ps[j].started| + Inside(ps[j].workers) <= |ps[i].started| + Inside(ps[i].workers)
    decreases j
  {
    if i < j {
      RunAfterStop(ps, steps, i, j - 1);
      StepAfterStop(ps[j - 1], steps[j - 1]);
    }
  }

  lemma {:induction false} WorkersStay(ps: seq<Pool>, steps: seq<Step>, i: nat)
    requires Run(ps, steps) && i < |ps|
    ensures |ps[i].workers| == |ps[0].workers|
  {
    if i > 0 { WorkersStay(ps, steps, i - 1); }
  }

  /** Once `m_running` is false it stays so, and at most one more task per thread starts. */
  lemma {:induction false} FewTasksAfterStop(numThreads: nat, ps: seq<Pool>, steps: seq<Step>, i: nat, j: nat)
    requires Run(ps, steps) && ps[0] == Initial(numThreads) && i <= j < |ps| && !ps[i].running
    ensures !ps[j].running && |ps[j].started| <= |ps[i].started| + numThreads
  {
    RunAfterStop(ps, steps, i, j);
    WorkersStay(ps, steps, i);
    InsideBound(ps[i].workers);
  }
}
