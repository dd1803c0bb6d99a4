/** The pool that processes source candidates: a feeder, an unbuffered channel of indices,
    a fixed number of workers and a mutex around the result slice. Every scheduling of
    these refines mapping the work over the candidates in order. */
module WorkerPool {
  import opened Basics

  /** Where a worker stands in its loop over the channel. */
  datatype Worker<+R> =
    | Receiving
    | Processing(index: nat)
    | Waiting(index: nat, result: R)  // for the mutex
    | Holding(index: nat, result: R)  // the mutex, before the write
    | Releasing                       // the mutex, after the write
    | Exited

  datatype Pool<+R> = Pool(
    next: nat,                 // the index the feeder offers
    closed: bool,              // the channel
    workers: seq<Worker<R>>,
    results: seq<Option<R>>,   // the shared slice; None is its zero value
    calls: seq<nat>)           // how often each index was processed

  /** The number of workers for a configured count and a number of candidates. */
  function WorkerCount(configured: int, candidates: nat): (count: nat)
    ensures candidates > 0 ==> 0 < count <= candidates
  {
    var wanted := if configured <= 0 then 8 else configured;
    if candidates < wanted then candidates else wanted
  }

  function Start<R>(size: nat, workers: nat): Pool<R> {
    Pool(0, false, seq(workers, _ => Receiving), seq(size, _ => None), seq(size, _ => 0))
  }

  predicate HasMutex<R>(worker: Worker<R>) {
    worker.Holding? || worker.Releasing?
  }

  datatype Step = Handoff(w: nat) | Process(w: nat) | Lock(w: nat) | Write(w: nat) | Unlock(w: nat) | Close | Exit(w: nat)

  predicate Enabled<R>(p: Pool<R>, step: Step) {
    if step.Close? then !p.closed && p.next == |p.results|
    else
      && step.w < |p.workers|
      && match step
         case Handoff(w) => !p.closed && p.next < |p.results| && p.workers[w].Receiving?
         case Process(w) => p.workers[w].Processing? && p.workers[w].index < |p.calls|
         case Lock(w) => p.workers[w].Waiting? && forall v :: 0 <= v < |p.workers| ==> !HasMutex(p.workers[v])
         case Write(w) => p.workers[w].Holding? && p.workers[w].index < |p.results|
         case Unlock(w) => p.workers[w].Releasing?
         case Exit(w) => p.closed && p.workers[w].Receiving?
  }

  function Apply<R>(work: nat -> R, p: Pool<R>, step: Step): Pool<R>
    requires Enabled(p, step)
  {
    match step
    case Handoff(w) => p.(next := p.next + 1, workers := p.workers[w := Processing(p.next)])
    case Process(w) =>
      var i := p.workers[w].index;
      p.(workers := p.workers[w := Waiting(i, work(i))], calls := p.calls[i := p.calls[i] + 1])
    case Lock(w) => p.(workers := p.workers[w := Holding(p.workers[w].index, p.workers[w].result)])
    case Write(w) =>
      p.(workers := p.workers[w := Releasing],
         results := p.results[p.workers[w].index := Some(p.workers[w].result)])
    case Unlock(w) => p.(workers := p.workers[w := Receiving])
    case Close => p.(closed := true)
    case Exit(w) => p.(workers := p.workers[w := Exited])
  }

  /** `wg.Wait` returns. */
  predicate Done<R>(p: Pool<R>) {
    forall w :: 0 <= w < |p.workers| ==> p.workers[w].Exited?
  }

  // ---------------------------------------------------------------- what every step keeps

  predicate Carries<R>(worker: Worker<R>, i: nat) {
    (worker.Processing? || worker.Waiting? || worker.Holding?) && worker.index == i
  }

  predicate Called<R>(worker: Worker<R>) {
    worker.Waiting? || worker.Holding?
  }

  ghost predicate Valid<R(!new)>(work: nat -> R, p: Pool<R>) {
    && |p.results| == |p.calls|
    && |p.workers| > 0
    && p.next <= |p.results|
    && (p.closed ==> p.next == |p.results|)
    && (forall w :: 0 <= w < |p.workers| ==> WorkerValid(work, p, p.workers[w]))
    && (forall v, w :: 0 <= v < w < |p.workers| ==> !(HasMutex(p.workers[v]) && HasMutex(p.workers[w])))
    && (forall v, w, i: nat :: 0 <= v < w < |p.workers| && Carries(p.workers[v], i) ==> !Carries(p.workers[w], i))
    && (forall i :: 0 <= i < |p.results| ==> IndexValid(work, p, i))
  }

  ghost predicate WorkerValid<R>(work: nat -> R, p: Pool<R>, worker: Worker<R>)
    requires |p.results| == |p.calls|
  {
    && (worker.Exited? ==> p.closed)
    && (forall i: nat :: Carries(worker, i) ==> i < p.next && i < |p.results| && p.results[i] == None)
    && (worker.Processing? && worker.index < |p.calls| ==> p.calls[worker.index] == 0)
    && (Called(worker) ==> worker.result == work(worker.index) && (worker.index < |p.calls| ==> p.calls[worker.index] == 1))
  }

  /** An index still to come was not touched; one handed out is carried by a worker or has
      its result, for which it was processed once. */
  ghost predicate IndexValid<R>(work: nat -> R, p: Pool<R>, i: nat)
    requires i < |p.results| == |p.calls|
  {
    && (p.results[i].Some? ==> p.results[i].value == work(i) && p.calls[i] == 1 && i < p.next)
    && (i >= p.next ==> p.calls[i] == 0)
    && (i < p.next && p.results[i] == None ==> exists w :: 0 <= w < |p.workers| && Carries(p.workers[w], i))
  }

  lemma StartValid<R(!new)>(work: nat -> R, size: nat, workers: nat)
    requires workers > 0
    ensures Valid(work, Start<R>(size, workers))
  {
  }

  /** The worker that took the step. */
  lemma StepKeepsOwn<R(!new)>(work: nat -> R, p: Pool<R>, step: Step)
    requires Valid(work, p) && Enabled(p, step) && !step.Close?
    ensures WorkerValid(work, Apply(work, p, step), Apply(work, p, step).workers[step.w])
  {
    var before := p.workers[step.w];
    assert WorkerValid(work, p, before);
    if step.Handoff? {
      assert IndexValid(work, p, p.next);
    } else if step.Process? || step.Lock? {
      assert Carries(before, before.index);
    }
  }

  /** A worker that another one's step leaves alone. */
  lemma StepKeepsOther<R(!new)>(work: nat -> R, p: Pool<R>, step: Step, w: nat)
    requires Valid(work, p) && Enabled(p, step) && !step.Close? && w < |p.workers| && w != step.w
    ensures WorkerValid(work, Apply(work, p, step), p.workers[w])
  {
    var own := p.workers[step.w];
    assert WorkerValid(work, p, p.workers[w]) && WorkerValid(work, p, own);
    if step.Process? || step.Write? {
      assert Carries(own, own.index);
      assert !Carries(p.workers[w], own.index);
    }
  }

  lemma StepKeepsWorkers<R(!new)>(work: nat -> R, p: Pool<R>, step: Step, w: nat)
    requires Valid(work, p) && Enabled(p, step) && w < |p.workers|
    ensures WorkerValid(work, Apply(work, p, step), Apply(work, p, step).workers[w])
  {
    if step.Close? {
      assert WorkerValid(work, p, p.workers[w]);
    } else if step.w == w {
      StepKeepsOwn(work, p, step);
    } else {
      StepKeepsOther(work, p, step, w);
      assert Apply(work, p, step).workers[w] == p.workers[w];
    }
  }

  lemma StepKeepsIndex<R(!new)>(work: nat -> R, p: Pool<R>, step: Step, i: nat)
    requires Valid(work, p) && Enabled(p, step) && i < |p.results|
    ensures IndexValid(work, Apply(work, p, step), i)
  {
    var q := Apply(work, p, step);
    assert IndexValid(work, p, i);
    if !step.Close? {
      assert WorkerValid(work, p, p.workers[step.w]);
      assert forall j: nat :: Carries(p.workers[step.w], j) ==> j < p.next && p.results[j] == None;
      if step.Process? || step.Write? {
        assert Carries(p.workers[step.w], p.workers[step.w].index);
      }
    }
    if i < q.next && q.results[i] == None {
      if i < p.next {
        var w :| 0 <= w < |p.workers| && Carries(p.workers[w], i);
        assert Carries(q.workers[w], i);
      } else {
        assert Carries(q.workers[step.w], i);
      }
    }
  }

  lemma StepKeepsValid<R(!new)>(work: nat -> R, p: Pool<R>, step: Step)
    requires Valid(work, p) && Enabled(p, step)
    ensures Valid(work, Apply(work, p, step))
  {
    var q := Apply(work, p, step);
    forall w | 0 <= w < |q.workers| ensures WorkerValid(work, q, q.workers[w]) {
      StepKeepsWorkers(work, p, step, w);
    }
    forall i | 0 <= i < |q.results| ensures IndexValid(work, q, i) {
      StepKeepsIndex(work, p, step, i);
    }
    forall v, w, i: nat | 0 <= v < w < |q.workers| && Carries(q.workers[v], i) ensures !Carries(q.workers[w], i) {
      assert WorkerValid(work, p, p.workers[v]) && WorkerValid(work, p, p.workers[w]);
      if !step.Close? && step.w == v && !step.Handoff? {
        assert Carries(p.workers[v], i);
      }
    }
  }

  // ---------------------------------------------------------------- no deadlock

  /** Until `wg.Wait` returns some step can be taken. */
  lemma NeverStuck<R(!new)>(work: nat -> R, p: Pool<R>)
    requires Valid(work, p) && !Done(p)
    ensures exists step :: Enabled(p, step)
  {
    var w :| 0 <= w < |p.workers| && !p.workers[w].Exited?;
    assert WorkerValid(work, p, p.workers[w]);
    match p.workers[w]
    case Processing(i) =>
      assert Carries(p.workers[w], i);
      assert Enabled(p, Process(w));
    case Waiting(_, _) =>
      if v :| 0 <= v < |p.workers| && HasMutex(p.workers[v]) {
        HolderMoves(work, p, v);
      } else {
        assert Enabled(p, Lock(w));
      }
    case Holding(_, _) => HolderMoves(work, p, w);
    case Releasing => HolderMoves(work, p, w);
    case Receiving =>
      if p.closed {
        assert Enabled(p, Exit(w));
      } else if p.next < |p.results| {
        assert Enabled(p, Handoff(w));
      } else {
        assert Enabled(p, Close);
      }
  }

  lemma HolderMoves<R(!new)>(work: nat -> R, p: Pool<R>, v: nat)
    requires Valid(work, p) && v < |p.workers| && HasMutex(p.workers[v])
    ensures exists step :: Enabled(p, step)
  {
    assert WorkerValid(work, p, p.workers[v]);
    if p.workers[v].Holding? {
      assert Carries(p.workers[v], p.workers[v].index);
      assert Enabled(p, Write(v));
    } else {
      assert Enabled(p, Unlock(v));
    }
  }

  // ---------------------------------------------------------------- termination

  function Effort<R>(worker: Worker<R>): nat {
    match worker
    case Receiving => 1
    case Processing(_) => 5
    case Waiting(_, _) => 4
    case Holding(_, _) => 3
    case Releasing => 2
    case Exited => 0
  }

  function TotalEffort<R>(workers: seq<Worker<R>>): nat {
    if workers == [] then 0 else Effort(workers[0]) + TotalEffort(workers[1..])
  }

  /** An upper bound on the steps still to be taken. */
  function Remaining<R>(p: Pool<R>): int {
    5 * (|p.results| - p.next) + TotalEffort(p.workers) + (if p.closed then 0 else 1)
  }

  lemma {:induction false} TotalEffortUpdate<R>(workers: seq<Worker<R>>, w: nat, worker: Worker<R>)
    requires w < |workers|
    ensures TotalEffort(workers[w := worker]) == TotalEffort(workers) - Effort(workers[w]) + Effort(worker)
  {
    if w == 0 {
      assert workers[w := worker][1..] == workers[1..];
    } else {
      TotalEffortUpdate(workers[1..], w - 1, worker);
      assert workers[w := worker][1..] == workers[1..][w - 1 := worker];
    }
  }

  lemma StepMakesProgress<R>(work: nat -> R, p: Pool<R>, step: Step)
    requires Enabled(p, step)
    ensures Remaining(Apply(work, p, step)) < Remaining(p)
  {
    if !step.Close? {
      var w := step.w;
      TotalEffortUpdate(p.workers, w, Apply(work, p, step).workers[w]);
    }
  }

  // ---------------------------------------------------------------- every scheduling

  /** The pool after a schedule, if every one of its steps could be taken. */
  function After<R>(work: nat -> R, p: Pool<R>, schedule: seq<Step>): Option<Pool<R>> {
    if schedule == [] then Some(p)
    else
      match After(work, p, schedule[..|schedule| - 1])
      case None => None
      case Some(q) =>
        var step := schedule[|schedule| - 1];
        if Enabled(q, step) then Some(Apply(work, q, step)) else None
  }

  lemma {:induction false} ScheduleKeepsValid<R(!new)>(work: nat -> R, p: Pool<R>, schedule: seq<Step>)
    requires Valid(work, p) && After(work, p, schedule).Some?
    ensures Valid(work, After(work, p, schedule).value)
    ensures |After(work, p, schedule).value.results| == |p.results|
    ensures |schedule| <= Remaining(p) - Remaining(After(work, p, schedule).value)
  {
    if schedule != [] {
      var n := |schedule| - 1;
      ScheduleKeepsValid(work, p, schedule[..n]);
      var q := After(work, p, schedule[..n]).value;
      StepKeepsValid(work, q, schedule[n]);
      StepMakesProgress(work, q, schedule[n]);
    }
  }

  lemma {:induction false} TotalEffortOfStart<R>(workers: seq<Worker<R>>)
    requires forall w :: 0 <= w < |workers| ==> workers[w].Receiving?
    ensures TotalEffort(workers) == |workers|
  {
    if workers != [] {
      TotalEffortOfStart(workers[1..]);
    }
  }

  /** The slice that mapping the work in index order gives, each index processed once. */
  ghost predicate IsMap<R(!new)>(work: nat -> R, p: Pool<R>, size: nat) {
    && |p.results| == size == |p.calls|
    && forall i :: 0 <= i < size ==> p.results[i] == Some(work(i)) && p.calls[i] == 1
  }

  lemma DoneIsMap<R(!new)>(work: nat -> R, p: Pool<R>)
    requires Valid(work, p) && Done(p)
    ensures IsMap(work, p, |p.results|)
  {
    assert WorkerValid(work, p, p.workers[0]);
    forall i | 0 <= i < |p.results| ensures p.results[i] == Some(work(i)) && p.calls[i] == 1 {
      assert IndexValid(work, p, i);
    }
  }

  /** Every scheduling ends, is never stuck before `wg.Wait` returns, and then leaves the
      result of mapping the work. */
  lemma PoolRefinesMap<R(!new)>(work: nat -> R, size: nat, workers: nat, schedule: seq<Step>)
    requires workers > 0 && After(work, Start(size, workers), schedule).Some?
    ensures |schedule| <= 5 * size + workers + 1
    ensures Done(After(work, Start(size, workers), schedule).value) ||
      exists step :: Enabled(After(work, Start(size, workers), schedule).value, step)
    ensures Done(After(work, Start(size, workers), schedule).value) ==>
      IsMap(work, After(work, Start(size, workers), schedule).value, size)
  {
    var start: Pool<R> := Start(size, workers);
    StartValid(work, size, workers);
    ScheduleKeepsValid(work, start, schedule);
    TotalEffortOfStart(start.workers);
    var last := After(work, start, schedule).value;
    if !Done(last) {
      NeverStuck(work, last);
    } else {
      DoneIsMap(work, last);
    }
  }
}
