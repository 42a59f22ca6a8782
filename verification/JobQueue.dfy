/** The job queue's condition-variable protocol and the worker threads' shutdown, as atomic steps of
    any number of pushing threads and worker threads, before the queue itself is shut down. */
module JobQueue {
  import opened Options

  type Thread = nat

  datatype Job = Packet(payload: nat) | ShutdownSignal

  /** A thread in PushJob: after the enqueue it takes the mutex, notifies, and is done. */
  datatype PusherPc = Idle | Enqueued | Notifying

  /** A worker: outside PopJob, wanting the mutex, about to try the queue, found it empty, blocked,
      woken and wanting the mutex again, about to try again, or gone after a shutdown signal. */
  datatype WorkerPc = Outside | Entering | Testing | Failed | Waiting | Notified | Retesting | Exited

  datatype Holder = Free | ByWorker(worker: Thread) | ByPusher(pusher: Thread)

  /** `pushed` and `taken` record every job ever enqueued and ever returned by PopJob. */
  datatype State = State(queue: multiset<Job>, mutex: Holder, workers: map<Thread, WorkerPc>,
                         pushers: map<Thread, PusherPc>, pushed: multiset<Job>, taken: multiset<Job>)

  /** The thread that runs Stop; it pushes shutdown signals, one per worker, and only these. */
  const STOPPER: Thread := 0

  datatype Step =
    | Enqueue(t: Thread, job: Job)
    | LockToNotify(t: Thread)
    | Notify(t: Thread, woken: Option<Thread>)
    | Enter(t: Thread)
    | Acquire(t: Thread)
    | Test(t: Thread, got: Option<Job>)
    | Block(t: Thread)
    | SpuriousWakeup(t: Thread)

  predicate AtWorker(s: State, t: Thread, pc: WorkerPc) { t in s.workers && s.workers[t] == pc }
  predicate AtPusher(s: State, t: Thread, pc: PusherPc) { t in s.pushers && s.pushers[t] == pc }

  /** `notify_one` wakes one blocked worker if there is any. */
  predicate CanNotify(s: State, woken: Option<Thread>) {
    match woken
    case Some(w) => AtWorker(s, w, Waiting)
    case None => forall w :: w in s.workers ==> s.workers[w] != Waiting
  }

  /** The queue hands out any of its jobs, and fails only when empty. */
  predicate CanTake(s: State, got: Option<Job>) {
    match got
    case Some(j) => j in s.queue
    case None => s.queue == multiset{}
  }

  predicate Enabled(s: State, step: Step) {
    match step
    case Enqueue(t, job) =>
      && AtPusher(s, t, Idle) && (job.ShutdownSignal? <==> t == STOPPER)
      && (t == STOPPER ==> s.pushed[ShutdownSignal] < |s.workers|)
    case LockToNotify(t) => AtPusher(s, t, Enqueued) && s.mutex.Free?
    case Notify(t, woken) => AtPusher(s, t, Notifying) && CanNotify(s, woken)
    case Enter(t) => AtWorker(s, t, Outside)
    case Acquire(t) => (AtWorker(s, t, Entering) || AtWorker(s, t, Notified)) && s.mutex.Free?
    case Test(t, got) => (AtWorker(s, t, Testing) || AtWorker(s, t, Retesting)) && CanTake(s, got)
    case Block(t) => AtWorker(s, t, Failed)
    case SpuriousWakeup(t) => AtWorker(s, t, Waiting)
  }

  function Apply(s: State, step: Step): State
    requires Enabled(s, step)
  {
    match step
    case Enqueue(t, job) =>
      s.(queue := s.queue + multiset{job}, pushed := s.pushed + multiset{job}, pushers := s.pushers[t := Enqueued])
    case LockToNotify(t) => s.(mutex := ByPusher(t), pushers := s.pushers[t := Notifying])
    case Notify(t, woken) =>
      s.(mutex := Free, pushers := s.pushers[t := Idle],
         workers := if woken.Some? then s.workers[woken.value := Notified] else s.workers)
    case Enter(t) => s.(workers := s.workers[t := Entering])
    case Acquire(t) =>
      s.(mutex := ByWorker(t), workers := s.workers[t := if s.workers[t] == Entering then Testing else Retesting])
    case Test(t, got) =>
      if got.Some? then
        s.(mutex := Free, queue := s.queue - multiset{got.value}, taken := s.taken + multiset{got.value},
           workers := s.workers[t := if got.value.ShutdownSignal? then Exited else Outside])
      else s.(workers := s.workers[t := Failed])
    case Block(t) => s.(mutex := Free, workers := s.workers[t := Waiting])
    case SpuriousWakeup(t) => s.(workers := s.workers[t := Notified])
  }

  predicate Initial(s: State) {
    && s.queue == multiset{} && s.pushed == multiset{} && s.taken == multiset{} && s.mutex == Free
    && (forall t :: t in s.workers ==> s.workers[t] == Outside)
    && (forall t :: t in s.pushers ==> s.pushers[t] == Idle)
  }

  ghost predicate IsRun(states: seq<State>, steps: seq<Step>) {
    && |states| == |steps| + 1 && Initial(states[0])
    && forall i :: 0 <= i < |steps| ==> Enabled(states[i], steps[i]) && states[i + 1] == Apply(states[i], steps[i])
  }

  // ---------------------------------------------------------------- counting threads

  /** The total of `f` over a thread table. */
  ghost function Total<P>(m: map<Thread, P>, f: P -> nat): nat
    decreases |m|
  {
    if m == map[] then 0
    else
      var t :| t in m;
      f(m[t]) + Total(m - {t}, f)
  }

  lemma {:induction false} TotalPick<P>(m: map<Thread, P>, f: P -> nat, t: Thread)
    requires t in m
    ensures Total(m, f) == f(m[t]) + Total(m - {t}, f)
    decreases |m|
  {
    var u :| u in m && Total(m, f) == f(m[u]) + Total(m - {u}, f);
    if u != t {
      TotalPick(m - {u}, f, t);
      TotalPick(m - {t}, f, u);
      assert m - {u} - {t} == m - {t} - {u};
    }
  }

  lemma TotalUpdate<P>(m: map<Thread, P>, f: P -> nat, t: Thread, p: P)
    requires t in m
    ensures Total(m[t := p], f) == Total(m, f) - f(m[t]) + f(p)
  {
    TotalPick(m, f, t);
    TotalPick(m[t := p], f, t);
    assert m[t := p] - {t} == m - {t};
  }

  lemma {:induction false} TotalZero<P>(m: map<Thread, P>, f: P -> nat)
    requires forall t :: t in m ==> f(m[t]) == 0
    ensures Total(m, f) == 0
    decreases |m|
  {
    if m != map[] {
      var t :| t in m;
      TotalPick(m, f, t);
      TotalZero(m - {t}, f);
    }
  }

  lemma {:induction false} TotalWitness<P>(m: map<Thread, P>, f: P -> nat) returns (t: Thread)
    requires Total(m, f) > 0
    ensures t in m && f(m[t]) > 0
    decreases |m|
  {
    t :| t in m;
    TotalPick(m, f, t);
    if f(m[t]) == 0 {
      t := TotalWitness(m - {t}, f);
    }
  }

  lemma {:induction false} TotalBound<P>(m: map<Thread, P>, f: P -> nat)
    requires forall t :: t in m ==> f(m[t]) <= 1
    ensures Total(m, f) <= |m|
    ensures Total(m, f) == |m| ==> forall t :: t in m ==> f(m[t]) == 1
    decreases |m|
  {
    if m != map[] {
      var t :| t in m;
      TotalPick(m, f, t);
      TotalBound(m - {t}, f);
      assert m.Keys == (m - {t}).Keys + {t};
    }
  }

  function MidPush(p: PusherPc): nat { if p == Idle then 0 else 1 }
  function Woken(w: WorkerPc): nat { if w == Notified || w == Retesting then 1 else 0 }
  function Gone(w: WorkerPc): nat { if w == Exited then 1 else 0 }

  // ---------------------------------------------------------------- what every step keeps

  predicate InCriticalSection(w: WorkerPc) { w == Testing || w == Failed || w == Retesting }

  ghost predicate MutexHeld(s: State) {
    && (forall w :: w in s.workers ==> (InCriticalSection(s.workers[w]) <==> s.mutex == ByWorker(w)))
    && (forall p :: p in s.pushers ==> (s.pushers[p] == Notifying <==> s.mutex == ByPusher(p)))
    && (s.mutex.ByWorker? ==> s.mutex.worker in s.workers) && (s.mutex.ByPusher? ==> s.mutex.pusher in s.pushers)
  }

  predicate Asleep(w: WorkerPc) { w == Waiting || w == Failed }

  /** Some worker is blocked and not notified, or has found the queue empty and is about to block. */
  ghost predicate SomeoneSleeps(workers: map<Thread, WorkerPc>) {
    exists w :: w in workers && Asleep(workers[w])
  }

  /** While a worker sleeps, every queued job has a pusher that has yet to notify or a notified worker
      that has yet to try again. */
  ghost predicate NoLostWakeup(s: State) {
    SomeoneSleeps(s.workers) ==> |s.queue| <= Total(s.pushers, MidPush) + Total(s.workers, Woken)
  }

  /** Every job pushed is still queued or was taken, as often as it was pushed. */
  ghost predicate Conserved(s: State) { s.pushed == s.queue + s.taken }

  /** A worker is gone for each signal taken, and no more signals are sent than there are workers. */
  ghost predicate SignalsCount(s: State) {
    s.taken[ShutdownSignal] == Total(s.workers, Gone) && s.pushed[ShutdownSignal] <= |s.workers|
  }

  ghost predicate Invariant(s: State) { MutexHeld(s) && NoLostWakeup(s) && Conserved(s) && SignalsCount(s) }

  predicate IsPusherStep(step: Step) { step.Enqueue? || step.LockToNotify? || step.Notify? }

  lemma PusherKeepsMutex(s: State, step: Step)
    requires Enabled(s, step) && MutexHeld(s) && IsPusherStep(step)
    ensures MutexHeld(Apply(s, step))
  {}

  lemma WorkerKeepsMutex(s: State, step: Step)
    requires Enabled(s, step) && MutexHeld(s) && !IsPusherStep(step)
    ensures MutexHeld(Apply(s, step))
  {
    if step.Acquire? { AcquireKeepsMutex(s, step.t); } else if step.Test? { TestKeepsMutex(s, step.t, step.got); }
  }

  lemma AcquireKeepsMutex(s: State, t: Thread)
    requires Enabled(s, Acquire(t)) && MutexHeld(s)
    ensures MutexHeld(Apply(s, Acquire(t)))
  {}

  lemma TestKeepsMutex(s: State, t: Thread, got: Option<Job>)
    requires Enabled(s, Test(t, got)) && MutexHeld(s)
    ensures MutexHeld(Apply(s, Test(t, got)))
  {}

  lemma StepKeepsMutex(s: State, step: Step)
    requires Enabled(s, step) && MutexHeld(s)
    ensures MutexHeld(Apply(s, step))
  {
    if IsPusherStep(step) { PusherKeepsMutex(s, step); } else { WorkerKeepsMutex(s, step); }
  }

  lemma TakeOne(q: multiset<Job>, j: Job)
    requires j in q
    ensures |q - multiset{j}| == |q| - 1
  {}

  lemma SleepersBefore(workers: map<Thread, WorkerPc>, t: Thread, pc: WorkerPc)
    requires t in workers && SomeoneSleeps(workers[t := pc]) && (Asleep(pc) ==> Asleep(workers[t]))
    ensures SomeoneSleeps(workers)
  {}

  /** A worker's move, with the queue as it then is, keeps the bound on unannounced jobs. */
  lemma MoveKeepsWakeup(s: State, r: State, t: Thread)
    requires NoLostWakeup(s) && t in s.workers && t in r.workers && r.workers == s.workers[t := r.workers[t]]
    requires r.pushers == s.pushers
    requires |r.queue| + Woken(s.workers[t]) <= |s.queue| + Woken(r.workers[t]) || r.queue == multiset{}
    requires r.queue == multiset{} || (Asleep(r.workers[t]) ==> Asleep(s.workers[t]))
    ensures NoLostWakeup(r)
  {
    TotalUpdate(s.workers, Woken, t, r.workers[t]);
    if SomeoneSleeps(r.workers) && r.queue != multiset{} {
      SleepersBefore(s.workers, t, r.workers[t]);
    }
  }

  lemma NotifyKeepsWakeup(s: State, t: Thread, woken: Option<Thread>)
    requires Enabled(s, Notify(t, woken)) && MutexHeld(s) && NoLostWakeup(s)
    ensures NoLostWakeup(Apply(s, Notify(t, woken)))
  {
    TotalUpdate(s.pushers, MidPush, t, Idle);
    match woken
    case Some(w) =>
      TotalUpdate(s.workers, Woken, w, Notified);
      if SomeoneSleeps(s.workers[w := Notified]) { SleepersBefore(s.workers, w, Notified); }
    case None =>
  }

  lemma TestKeepsWakeup(s: State, t: Thread, got: Option<Job>)
    requires Enabled(s, Test(t, got)) && NoLostWakeup(s)
    ensures NoLostWakeup(Apply(s, Test(t, got)))
  {
    if got.Some? { TakeOne(s.queue, got.value); }
    MoveKeepsWakeup(s, Apply(s, Test(t, got)), t);
  }

  lemma WorkerKeepsWakeup(s: State, step: Step)
    requires Enabled(s, step) && NoLostWakeup(s) && !IsPusherStep(step) && !step.Test?
    ensures NoLostWakeup(Apply(s, step))
  {
    MoveKeepsWakeup(s, Apply(s, step), step.t);
  }

  lemma EnqueueKeepsWakeup(s: State, t: Thread, job: Job)
    requires Enabled(s, Enqueue(t, job)) && NoLostWakeup(s)
    ensures NoLostWakeup(Apply(s, Enqueue(t, job)))
  {
    TotalUpdate(s.pushers, MidPush, t, Enqueued);
  }

  lemma LockKeepsWakeup(s: State, t: Thread)
    requires Enabled(s, LockToNotify(t)) && NoLostWakeup(s)
    ensures NoLostWakeup(Apply(s, LockToNotify(t)))
  {
    TotalUpdate(s.pushers, MidPush, t, Notifying);
  }

  lemma StepKeepsWakeup(s: State, step: Step)
    requires Enabled(s, step) && MutexHeld(s) && NoLostWakeup(s)
    ensures NoLostWakeup(Apply(s, step))
  {
    match step
    case Enqueue(t, job) => EnqueueKeepsWakeup(s, t, job);
    case LockToNotify(t) => LockKeepsWakeup(s, t);
    case Notify(t, woken) => NotifyKeepsWakeup(s, t, woken);
    case Test(t, got) => TestKeepsWakeup(s, t, got);
    case _ => WorkerKeepsWakeup(s, step);
  }

  /** A worker's move that takes the signals it should keeps their count. */
  lemma MoveKeepsSignals(s: State, r: State, t: Thread)
    requires SignalsCount(s) && t in s.workers && s.workers[t] != Exited && t in r.workers
    requires r.workers == s.workers[t := r.workers[t]] && r.pushed == s.pushed
    requires r.taken[ShutdownSignal] == s.taken[ShutdownSignal] + Gone(r.workers[t])
    ensures SignalsCount(r) && |r.workers| == |s.workers|
  {
    TotalUpdate(s.workers, Gone, t, r.workers[t]);
    assert r.workers.Keys == s.workers.Keys;
  }

  lemma StepConserves(s: State, step: Step)
    requires Enabled(s, step) && Conserved(s)
    ensures Conserved(Apply(s, step))
  {}

  lemma PusherKeepsSignals(s: State, step: Step)
    requires Enabled(s, step) && SignalsCount(s) && IsPusherStep(step)
    ensures SignalsCount(Apply(s, step)) && |Apply(s, step).workers| == |s.workers|
  {
    if step.Notify? && step.woken.Some? { MoveKeepsSignals(s, Apply(s, step), step.woken.value); }
  }

  lemma TestKeepsSignals(s: State, t: Thread, got: Option<Job>)
    requires Enabled(s, Test(t, got)) && SignalsCount(s)
    ensures SignalsCount(Apply(s, Test(t, got))) && |Apply(s, Test(t, got)).workers| == |s.workers|
  {
    MoveKeepsSignals(s, Apply(s, Test(t, got)), t);
  }

  lemma WorkerKeepsSignals(s: State, step: Step)
    requires Enabled(s, step) && SignalsCount(s) && !IsPusherStep(step)
    ensures SignalsCount(Apply(s, step)) && |Apply(s, step).workers| == |s.workers|
  {
    if step.Test? { TestKeepsSignals(s, step.t, step.got); } else { MoveKeepsSignals(s, Apply(s, step), step.t); }
  }

  lemma StepKeepsSignals(s: State, step: Step)
    requires Enabled(s, step) && SignalsCount(s)
    ensures SignalsCount(Apply(s, step)) && |Apply(s, step).workers| == |s.workers|
  {
    if IsPusherStep(step) { PusherKeepsSignals(s, step); } else { WorkerKeepsSignals(s, step); }
  }

  lemma StepKeeps(s: State, step: Step)
    requires Enabled(s, step) && Invariant(s)
    ensures Invariant(Apply(s, step)) && |Apply(s, step).workers| == |s.workers|
  {
    StepKeepsMutex(s, step);
    StepKeepsWakeup(s, step);
    StepConserves(s, step);
    StepKeepsSignals(s, step);
  }

  /** The invariant holds in every state of every interleaving. */
  lemma {:induction false} RunInvariant(states: seq<State>, steps: seq<Step>, i: nat)
    requires IsRun(states, steps) && i < |states|
    ensures Invariant(states[i])
  {
    if i == 0 {
      TotalZero(states[0].workers, Gone);
    } else {
      RunInvariant(states, steps, i - 1);
      StepKeeps(states[i - 1], steps[i - 1]);
    }
  }

  /** No lost wakeup: when no push is under way and no woken worker has yet to try again, there is no
      job in the queue while a worker sleeps. */
  lemma QuiescentNeverStuck(states: seq<State>, steps: seq<Step>, i: nat)
    requires IsRun(states, steps) && i < |states|
    requires forall p :: p in states[i].pushers ==> states[i].pushers[p] == Idle
    requires forall w :: w in states[i].workers ==> Woken(states[i].workers[w]) == 0
    ensures SomeoneSleeps(states[i].workers) ==> states[i].queue == multiset{}
  {
    RunInvariant(states, steps, i);
    TotalZero(states[i].pushers, MidPush);
    TotalZero(states[i].workers, Woken);
  }

  // ---------------------------------------------------------------- stopping

  /** Stop has enqueued all its signals. */
  predicate AllSignalsSent(s: State) { s.pushed[ShutdownSignal] == |s.workers| }

  /** Once all signals are sent, the queue holds one for each worker that is still there. */
  lemma SignalsMatchWorkers(s: State)
    requires Invariant(s) && AllSignalsSent(s)
    ensures s.queue[ShutdownSignal] + Total(s.workers, Gone) == |s.workers|
  {}

  /** The steps that finish what is under way: everything but new pushes and spurious wakeups. */
  predicate IsInternal(step: Step) { !step.Enqueue? && !step.SpuriousWakeup? }

  predicate AllGone(s: State) { forall w :: w in s.workers ==> s.workers[w] == Exited }

  /** Until every worker is gone some internal step is possible: Stop cannot deadlock. */
  lemma StopProgress(s: State) returns (step: Step)
    requires Invariant(s) && AllSignalsSent(s) && !AllGone(s)
    ensures IsInternal(step) && Enabled(s, step)
  {
    var live :| live in s.workers && s.workers[live] != Exited;
    SignalForLive(s, live);
    step := JobProgress(s);
  }

  /** While there are a job and a worker, some internal step is possible. */
  lemma JobProgress(s: State) returns (step: Step)
    requires Invariant(s) && s.queue != multiset{} && !AllGone(s)
    ensures IsInternal(step) && Enabled(s, step)
  {
    var live :| live in s.workers && s.workers[live] != Exited;
    if s.mutex.ByWorker? {
      step := HolderStep(s, s.mutex.worker);
    } else if s.mutex.ByPusher? {
      step := NotifierStep(s, s.mutex.pusher);
    } else if p :| p in s.pushers && s.pushers[p] != Idle {
      step := LockToNotify(p);
    } else {
      var w := AwakeWorker(s, live);
      step := if s.workers[w] == Outside then Enter(w) else Acquire(w);
    }
  }

  lemma HolderStep(s: State, w: Thread) returns (step: Step)
    requires MutexHeld(s) && s.mutex == ByWorker(w)
    ensures IsInternal(step) && Enabled(s, step)
  {
    if s.workers[w] == Failed {
      step := Block(w);
    } else if j :| j in s.queue {
      step := Test(w, Some(j));
    } else {
      step := Test(w, None);
    }
  }

  lemma NotifierStep(s: State, p: Thread) returns (step: Step)
    requires MutexHeld(s) && s.mutex == ByPusher(p)
    ensures IsInternal(step) && Enabled(s, step)
  {
    if w :| w in s.workers && s.workers[w] == Waiting {
      step := Notify(p, Some(w));
    } else {
      step := Notify(p, None);
    }
  }

  /** While there is a job the live workers are never all asleep with nobody about to wake one. */
  lemma AwakeWorker(s: State, live: Thread) returns (w: Thread)
    requires Invariant(s) && s.queue != multiset{} && live in s.workers && s.workers[live] != Exited
    requires forall p :: p in s.pushers ==> s.pushers[p] == Idle
    ensures w in s.workers && s.workers[w] != Waiting && s.workers[w] != Exited
  {
    if s.workers[live] != Waiting {
      return live;
    }
    TotalZero(s.pushers, MidPush);
    assert Asleep(s.workers[live]);
    assert |s.queue| >= 1;
    w := TotalWitness(s.workers, Woken);
  }

  lemma SignalForLive(s: State, live: Thread)
    requires Invariant(s) && AllSignalsSent(s) && live in s.workers && s.workers[live] != Exited
    ensures ShutdownSignal in s.queue && |s.queue| >= 1
  {
    TotalBound(s.workers, Gone);
    SignalsMatchWorkers(s);
    assert Gone(s.workers[live]) == 0;
    assert s.queue == (s.queue - multiset{ShutdownSignal}) + multiset{ShutdownSignal};
  }

  function WorkerWork(w: WorkerPc): nat {
    match w
    case Outside => 5
    case Entering => 4
    case Testing => 3
    case Failed => 2
    case Waiting => 0
    case Notified => 4
    case Retesting => 3
    case Exited => 0
  }

  function PusherWork(p: PusherPc): nat {
    match p
    case Idle => 0
    case Enqueued => 6
    case Notifying => 5
  }

  /** A bound on the internal steps still to come. */
  ghost function Work(s: State): nat {
    3 * |s.queue| + Total(s.workers, WorkerWork) + Total(s.pushers, PusherWork)
  }

  lemma WorkerMoveWorks(s: State, r: State, t: Thread)
    requires t in s.workers && t in r.workers && r.workers == s.workers[t := r.workers[t]] && r.pushers == s.pushers
    requires 3 * |r.queue| + WorkerWork(r.workers[t]) < 3 * |s.queue| + WorkerWork(s.workers[t])
    ensures Work(r) < Work(s)
  {
    TotalUpdate(s.workers, WorkerWork, t, r.workers[t]);
  }

  lemma NotifyWorks(s: State, t: Thread, woken: Option<Thread>)
    requires Enabled(s, Notify(t, woken))
    ensures Work(Apply(s, Notify(t, woken))) < Work(s)
  {
    TotalUpdate(s.pushers, PusherWork, t, Idle);
    if woken.Some? { TotalUpdate(s.workers, WorkerWork, woken.value, Notified); }
  }

  lemma LockWorks(s: State, t: Thread)
    requires Enabled(s, LockToNotify(t))
    ensures Work(Apply(s, LockToNotify(t))) < Work(s)
  {
    TotalUpdate(s.pushers, PusherWork, t, Notifying);
  }

  lemma TestWorks(s: State, t: Thread, got: Option<Job>)
    requires Enabled(s, Test(t, got))
    ensures Work(Apply(s, Test(t, got))) < Work(s)
  {
    if got.Some? { TakeOne(s.queue, got.value); }
    WorkerMoveWorks(s, Apply(s, Test(t, got)), t);
  }

  lemma InternalStepsEnd(s: State, step: Step)
    requires Enabled(s, step) && IsInternal(step)
    ensures Work(Apply(s, step)) < Work(s)
  {
    match step
    case LockToNotify(t) => LockWorks(s, t);
    case Notify(t, woken) => NotifyWorks(s, t, woken);
    case Enter(t) => WorkerMoveWorks(s, Apply(s, step), t);
    case Acquire(t) => WorkerMoveWorks(s, Apply(s, step), t);
    case Test(t, got) => TestWorks(s, t, got);
    case Block(t) => WorkerMoveWorks(s, Apply(s, step), t);
  }

  lemma InternalPushesNothing(s: State, step: Step)
    requires Enabled(s, step) && IsInternal(step)
    ensures Apply(s, step).pushed == s.pushed
  {}

  /** From any reachable state in which all signals are sent, the threads can finish what is under way
      so that every worker is gone and all joins return. */
  lemma {:induction false} StopCompletes(s: State) returns (steps: seq<Step>, last: State)
    requires Invariant(s) && AllSignalsSent(s)
    ensures AllGone(last) && Reaches(s, steps, last)
    decreases Work(s)
  {
    if AllGone(s) {
      return [], s;
    }
    var step := StopProgress(s);
    InternalStepsEnd(s, step);
    StepKeeps(s, step);
    InternalPushesNothing(s, step);
    var rest;
    rest, last := StopCompletes(Apply(s, step));
    steps := [step] + rest;
    assert steps[1..] == rest;
  }

  /** `steps`, all internal, lead from `s` to `last`. */
  ghost predicate Reaches(s: State, steps: seq<Step>, last: State)
    decreases steps
  {
    if steps == [] then s == last
    else Enabled(s, steps[0]) && IsInternal(steps[0]) && Reaches(Apply(s, steps[0]), steps[1..], last)
  }

  /** However the threads are scheduled, internal steps run out. */
  lemma {:induction false} EveryScheduleEnds(s: State, steps: seq<Step>, last: State)
    requires Reaches(s, steps, last)
    ensures |steps| + Work(last) <= Work(s)
    decreases steps
  {
    if steps != [] {
      InternalStepsEnd(s, steps[0]);
      EveryScheduleEnds(Apply(s, steps[0]), steps[1..], last);
    }
  }

  lemma {:induction false} ReachesKeeps(s: State, steps: seq<Step>, last: State)
    requires Reaches(s, steps, last) && Invariant(s) && AllSignalsSent(s)
    ensures Invariant(last) && AllSignalsSent(last)
    decreases steps
  {
    if steps != [] {
      StepKeeps(s, steps[0]);
      InternalPushesNothing(s, steps[0]);
      ReachesKeeps(Apply(s, steps[0]), steps[1..], last);
    }
  }

  /** Nothing that is under way is left to do. */
  ghost predicate Finished(s: State) { forall step :: IsInternal(step) ==> !Enabled(s, step) }

  /** After Stop has sent its signals, in every run and under every schedule that lets the threads finish:
      when nothing is left to do, every worker is gone, so every join returns. */
  lemma EveryScheduleStops(states: seq<State>, steps: seq<Step>, i: nat, more: seq<Step>, last: State)
    requires IsRun(states, steps) && i < |states| && AllSignalsSent(states[i])
    requires Reaches(states[i], more, last) && Finished(last)
    ensures AllGone(last) && |more| <= Work(states[i])
  {
    RunInvariant(states, steps, i);
    ReachesKeeps(states[i], more, last);
    EveryScheduleEnds(states[i], more, last);
    if !AllGone(last) {
      var step := StopProgress(last);
    }
  }

  // ---------------------------------------------------------------- every job is taken

  lemma {:induction false} ReachesInvariant(s: State, steps: seq<Step>, last: State)
    requires Reaches(s, steps, last) && Invariant(s)
    ensures Invariant(last) && last.pushed == s.pushed
    decreases steps
  {
    if steps != [] {
      StepKeeps(s, steps[0]);
      InternalPushesNothing(s, steps[0]);
      ReachesInvariant(Apply(s, steps[0]), steps[1..], last);
    }
  }

  /** In every run, any idle thread but the stopping one can push any packet; and under every schedule that
      lets the threads finish after that, the packet and all other jobs pushed are taken, unless every worker
      is gone. */
  lemma EveryJobIsTaken(states: seq<State>, steps: seq<Step>, i: nat, t: Thread, payload: nat, more: seq<Step>, last: State)
    requires IsRun(states, steps) && i < |states| && AtPusher(states[i], t, Idle) && t != STOPPER
    requires Enabled(states[i], Enqueue(t, Packet(payload))) ==>
               Reaches(Apply(states[i], Enqueue(t, Packet(payload))), more, last) && Finished(last)
    ensures Enabled(states[i], Enqueue(t, Packet(payload)))
    ensures AllGone(last) || last.taken == last.pushed == states[i].pushed + multiset{Packet(payload)}
  {
    var s := states[i];
    RunInvariant(states, steps, i);
    StepKeeps(s, Enqueue(t, Packet(payload)));
    ReachesInvariant(Apply(s, Enqueue(t, Packet(payload))), more, last);
    if !AllGone(last) && last.queue != multiset{} {
      var step := JobProgress(last);
    }
  }

  predicate InPopJob(w: WorkerPc) { w != Outside && w != Exited }

  lemma OnlyTestReturns(s: State, step: Step, t: Thread)
    requires Enabled(s, step) && MutexHeld(s) && t in s.workers && InPopJob(s.workers[t]) && !InPopJob(Apply(s, step).workers[t])
    ensures step.Test? && step.t == t && step.got.Some?
  {}

  /** PopJob returns only with a job that was in the queue; a worker goes on with a packet and is gone after
      a shutdown signal. */
  lemma PopReturnsJob(s: State, step: Step, t: Thread)
    requires Enabled(s, step) && Invariant(s) && t in s.workers && InPopJob(s.workers[t]) && !InPopJob(Apply(s, step).workers[t])
    ensures step.Test? && step.t == t && step.got.Some?
    ensures var job := step.got.value;
            && job in s.queue && Apply(s, step).taken == s.taken + multiset{job}
            && (Apply(s, step).workers[t] == Exited <==> job == ShutdownSignal)
  {
    OnlyTestReturns(s, step, t);
    TestReturns(s, t, step.got.value);
  }

  lemma TestReturns(s: State, t: Thread, job: Job)
    requires Enabled(s, Test(t, Some(job)))
    ensures var r := Apply(s, Test(t, Some(job)));
            job in s.queue && r.taken == s.taken + multiset{job} && (r.workers[t] == Exited <==> job == ShutdownSignal)
  {}

  // ---------------------------------------------------------------- stopping from anywhere

  /** What Stop needs: internal steps, and the stopping thread's own pushes. */
  predicate IsStopStep(step: Step) { IsInternal(step) || step == Enqueue(STOPPER, ShutdownSignal) }

  ghost predicate StopReaches(s: State, steps: seq<Step>, last: State)
    decreases steps
  {
    if steps == [] then s == last
    else Enabled(s, steps[0]) && IsStopStep(steps[0]) && StopReaches(Apply(s, steps[0]), steps[1..], last)
  }

  /** While signals are missing, the stopping thread can push one or something is in its way that can move. */
  lemma StopperProgress(s: State) returns (step: Step)
    requires Invariant(s) && STOPPER in s.pushers && s.pushed[ShutdownSignal] < |s.workers|
    ensures IsStopStep(step) && Enabled(s, step)
  {
    if s.pushers[STOPPER] == Idle {
      step := Enqueue(STOPPER, ShutdownSignal);
    } else if s.mutex.ByWorker? {
      step := HolderStep(s, s.mutex.worker);
    } else if s.mutex.ByPusher? {
      step := NotifierStep(s, s.mutex.pusher);
    } else {
      step := LockToNotify(STOPPER);
    }
  }

  lemma StopperStays(s: State, step: Step)
    requires Enabled(s, step) && STOPPER in s.pushers
    ensures STOPPER in Apply(s, step).pushers
  {}

  /** From every reachable state, whatever is under way, Stop can push all its signals and all workers can
      exit, so all joins return. */
  lemma {:induction false} StopFromAnywhere(s: State) returns (steps: seq<Step>, last: State)
    requires Invariant(s) && STOPPER in s.pushers
    ensures StopReaches(s, steps, last) && AllGone(last) && last.pushed[ShutdownSignal] == |s.workers|
    decreases |s.workers| - s.pushed[ShutdownSignal], Work(s)
  {
    var step;
    if s.pushed[ShutdownSignal] < |s.workers| {
      step := StopperProgress(s);
    } else if AllGone(s) {
      return [], s;
    } else {
      step := StopProgress(s);
    }
    StepKeeps(s, step);
    StopperStays(s, step);
    if IsInternal(step) {
      InternalStepsEnd(s, step);
      InternalPushesNothing(s, step);
    }
    var rest;
    rest, last := StopFromAnywhere(Apply(s, step));
    steps := [step] + rest;
    assert steps[1..] == rest;
  }

  /** In every run. */
  lemma StopCanAlwaysComplete(states: seq<State>, steps: seq<Step>, i: nat) returns (more: seq<Step>, last: State)
    requires IsRun(states, steps) && i < |states| && STOPPER in states[i].pushers
    ensures StopReaches(states[i], more, last) && AllGone(last) && last.pushed[ShutdownSignal] == |states[i].workers|
  {
    RunInvariant(states, steps, i);
    more, last := StopFromAnywhere(states[i]);
  }
}
