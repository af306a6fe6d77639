/**
 The thread pool of the network library: a queue of tasks, workers that fetch
 them, a stop flag and a number of workers that may change at run time. Each
 region guarded by the pool's mutex is one step; a wait is the guard of a step.
 */
module ThreadPools {
  import opened Lists
  import opened Wrappers

  // Tasks are numbered in the order they are added.
  type Task = nat

  datatype Worker = Idle | Busy(task: Task)

  datatype Pool = Pool(
    tasks: seq<Task>,
    workers: seq<Worker>,
    maxThreads: nat,
    runningThreads: int,
    shouldStop: bool,
    // history: how many tasks were added, which were started and finished, and
    // how many had been started when the pool was stopped
    added: nat,
    started: seq<Task>,
    finished: seq<Task>,
    startedAtStop: nat)

  datatype Event =
    | AddTask
    | Fetch(w: nat)
    | Finish(w: nat)
    | Stop
    | Resize(n: nat)

  function Initial(): Pool {
    Pool([], [], 0, 0, false, 0, [], [], 0)
  }

  // A worker asking for work is to leave when the pool stops or has too many workers.
  predicate ShouldStop(p: Pool) {
    p.shouldStop || p.runningThreads > p.maxThreads
  }

  predicate Enabled(p: Pool, e: Event) {
    match e
    case AddTask => true
    case Fetch(w) => w < |p.workers| && p.workers[w].Idle? && (ShouldStop(p) || p.tasks != [])
    case Finish(w) => w < |p.workers| && p.workers[w].Busy?
    case Stop => true
    case Resize(_) => true
  }

  function Add(p: Pool): Pool {
    p.(tasks := p.tasks + [p.added], added := p.added + 1)
  }

  function Retire(p: Pool, w: nat): Pool
    requires w < |p.workers|
  {
    p.(workers := p.workers[..w] + p.workers[w + 1..], runningThreads := p.runningThreads - 1)
  }

  function Begin(p: Pool, w: nat): Pool
    requires w < |p.workers| && p.tasks != []
  {
    p.(workers := p.workers[w := Busy(p.tasks[0])], tasks := p.tasks[1..], started := p.started + [p.tasks[0]])
  }

  function Complete(p: Pool, w: nat): Pool
    requires w < |p.workers| && p.workers[w].Busy?
  {
    p.(workers := p.workers[w := Idle], finished := p.finished + [p.workers[w].task])
  }

  function Halt(p: Pool): Pool {
    p.(shouldStop := true, startedAtStop := if p.shouldStop then p.startedAtStop else |p.started|)
  }

  function Idles(n: nat): (ws: seq<Worker>)
    ensures |ws| == n && forall i :: 0 <= i < n ==> ws[i] == Idle
  {
    if n == 0 then [] else Idles(n - 1) + [Idle]
  }

  // New workers are spawned at once; too many are retired later, by themselves.
  function SetThreads(p: Pool, n: nat): Pool {
    if p.runningThreads >= n then p.(maxThreads := n)
    else p.(maxThreads := n, runningThreads := n, workers := p.workers + Idles(n - p.runningThreads))
  }

  function Apply(p: Pool, e: Event): Pool
    requires Enabled(p, e)
  {
    match e
    case AddTask => Add(p)
    case Fetch(w) => if ShouldStop(p) then Retire(p, w) else Begin(p, w)
    case Finish(w) => Complete(p, w)
    case Stop => Halt(p)
    case Resize(n) => SetThreads(p, n)
  }

  function Exec(p: Pool, es: seq<Event>): Option<Pool>
    decreases |es|
  {
    if es == [] then Some(p)
    else if !Enabled(p, es[0]) then None
    else Exec(Apply(p, es[0]), es[1..])
  }

  // --- Invariant --------------------------------------------------------------

  function TasksOf(w: Worker): seq<Task> {
    if w.Busy? then [w.task] else []
  }

  function BusyTasks(ws: seq<Worker>): seq<Task> {
    if ws == [] then [] else TasksOf(ws[0]) + BusyTasks(ws[1..])
  }

  // Tasks leave the queue in the order they entered it, and are running or finished, once.
  ghost predicate Conserved(p: Pool) {
    && p.started + p.tasks == Range(p.added)
    && multiset(p.started) == multiset(p.finished) + multiset(BusyTasks(p.workers))
  }

  ghost predicate Counted(p: Pool) {
    && p.runningThreads == |p.workers|
    && (!p.shouldStop ==> |p.workers| >= p.maxThreads)
    && (p.shouldStop ==> |p.started| == p.startedAtStop)
  }

  ghost predicate Inv(p: Pool) {
    Conserved(p) && Counted(p)
  }

  lemma {:induction false} BusyOfTwo(a: seq<Worker>, b: seq<Worker>)
    ensures BusyTasks(a + b) == BusyTasks(a) + BusyTasks(b)
  {
    hide TasksOf;
    if a == [] {
      assert a + b == b;
    } else {
      BusyOfTwo(a[1..], b);
      assert (a + b)[1..] == a[1..] + b;
      Assoc(TasksOf(a[0]), BusyTasks(a[1..]), BusyTasks(b));
    }
  }

  // What the workers hold when worker w is x, or gone, in terms of what the others hold.
  lemma BusyAround(ws: seq<Worker>, w: nat, x: Worker)
    requires w < |ws|
    ensures multiset(BusyTasks(ws)) == multiset(BusyTasks(ws[..w] + ws[w + 1..])) + multiset(TasksOf(ws[w]))
    ensures multiset(BusyTasks(ws[w := x])) == multiset(BusyTasks(ws[..w] + ws[w + 1..])) + multiset(TasksOf(x))
  {
    hide BusyTasks;
    hide TasksOf;
    BusyOfTwo(ws[..w], ws[w + 1..]);
    BusyInserted(ws[..w], ws[w], ws[w + 1..]);
    BusyInserted(ws[..w], x, ws[w + 1..]);
    assert ws[..w] + [ws[w]] + ws[w + 1..] == ws;
    assert ws[..w] + [x] + ws[w + 1..] == ws[w := x];
  }

  lemma BusyInserted(a: seq<Worker>, x: Worker, b: seq<Worker>)
    ensures BusyTasks(a + [x] + b) == BusyTasks(a) + TasksOf(x) + BusyTasks(b)
  {
    hide BusyTasks;
    hide TasksOf;
    BusyOfTwo(a + [x], b);
    BusyOfTwo(a, [x]);
    BusyOfOne(x);
  }

  lemma BusyOfOne(x: Worker)
    ensures BusyTasks([x]) == TasksOf(x)
  {
    assert BusyTasks([x][1..]) == [];
  }

  lemma {:induction false} BusyOfIdles(n: nat)
    ensures BusyTasks(Idles(n)) == []
  {
    if n > 0 {
      BusyOfIdles(n - 1);
      BusyOfTwo(Idles(n - 1), [Idle]);
      BusyOfOne(Idle);
    }
  }

  lemma AddKeeps(p: Pool)
    requires Inv(p)
    ensures Inv(Add(p))
  {
    hide BusyTasks;
    assert p.started + (p.tasks + [p.added]) == p.started + p.tasks + [p.added];
  }

  lemma RetireKeeps(p: Pool, w: nat)
    requires Inv(p) && Enabled(p, Fetch(w)) && ShouldStop(p)
    ensures Inv(Retire(p, w))
  {
    hide BusyTasks;
    hide Range;
    BusyAround(p.workers, w, Idle);
  }

  lemma BeginKeeps(p: Pool, w: nat)
    requires Inv(p) && Enabled(p, Fetch(w)) && !ShouldStop(p)
    ensures Inv(Begin(p, w))
  {
    hide BusyTasks;
    hide Range;
    BusyAround(p.workers, w, Busy(p.tasks[0]));
    assert p.started + [p.tasks[0]] + p.tasks[1..] == p.started + p.tasks;
  }

  lemma CompleteKeeps(p: Pool, w: nat)
    requires Inv(p) && Enabled(p, Finish(w))
    ensures Inv(Complete(p, w))
  {
    hide BusyTasks;
    hide Range;
    BusyAround(p.workers, w, Idle);
  }

  lemma SetThreadsKeeps(p: Pool, n: nat)
    requires Inv(p)
    ensures Inv(SetThreads(p, n))
  {
    hide BusyTasks;
    hide Range;
    if p.runningThreads < n {
      BusyOfIdles(n - p.runningThreads);
      BusyOfTwo(p.workers, Idles(n - p.runningThreads));
      assert BusyTasks(p.workers) + [] == BusyTasks(p.workers);
    }
  }

  lemma StepKeeps(p: Pool, e: Event)
    requires Inv(p) && Enabled(p, e)
    ensures Inv(Apply(p, e))
  {
    hide BusyTasks;
    hide Range;
    match e
    case AddTask => AddKeeps(p);
    case Fetch(w) => if ShouldStop(p) { RetireKeeps(p, w); } else { BeginKeeps(p, w); }
    case Finish(w) => CompleteKeeps(p, w);
    case Stop =>
    case Resize(n) => SetThreadsKeeps(p, n);
  }

  lemma {:induction false} RunKeeps(p: Pool, es: seq<Event>)
    requires Inv(p)
    ensures Exec(p, es).Some? ==> Inv(Exec(p, es).value)
    decreases |es|
  {
    if es != [] && Enabled(p, es[0]) {
      StepKeeps(p, es[0]);
      RunKeeps(Apply(p, es[0]), es[1..]);
    }
  }

  lemma EveryRun(es: seq<Event>)
    requires Exec(Initial(), es).Some?
    ensures Inv(Exec(Initial(), es).value)
  {
    RunKeeps(Initial(), es);
  }

  // --- Main results -------------------------------------------------------------

  /**
   At any time each added task is exactly one of queued, running and finished;
   tasks are started in the order they were added.
   */
  lemma ExactlyOnePlace(es: seq<Event>, t: Task)
    requires Exec(Initial(), es).Some? && t < Exec(Initial(), es).value.added
    ensures var p := Exec(Initial(), es).value;
            && multiset(p.tasks)[t] + multiset(BusyTasks(p.workers))[t] + multiset(p.finished)[t] == 1
            && p.started == Range(|p.started|)
  {
    EveryRun(es);
    var p := Exec(Initial(), es).value;
    RangeOnce(p.added, t);
    assert multiset(p.started + p.tasks)[t] == 1;
    forall i | 0 <= i < |p.started| ensures p.started[i] == i {
      assert (p.started + p.tasks)[i] == i;
    }
  }

  // Tasks added and not finished yet.
  ghost function Live(p: Pool): set<Task> {
    set t | 0 <= t < p.added && t !in p.finished
  }

  lemma LiveIsQueuedOrRunning(p: Pool)
    requires Inv(p)
    ensures forall t: Task :: t in Live(p) <==> t in p.tasks || t in BusyTasks(p.workers)
    ensures forall t :: t in p.finished ==> t < p.added
  {
    hide BusyTasks;
    hide Range;
    forall t: Task
      ensures t in p.finished ==> t < p.added
      ensures t in Live(p) <==> t in p.tasks || t in BusyTasks(p.workers)
    {
      RangeHas(p.added, t);
      RangeOnce(p.added, t);
      assert multiset(p.started + p.tasks) == multiset(p.started) + multiset(p.tasks);
      assert t in p.finished <==> multiset(p.finished)[t] > 0;
      assert t in p.tasks <==> multiset(p.tasks)[t] > 0;
      assert t in BusyTasks(p.workers) <==> multiset(BusyTasks(p.workers))[t] > 0;
    }
  }

  /** Adding makes a task live, its end makes it dead, and nothing else does either. */
  lemma LiveAfter(p: Pool, e: Event)
    requires Inv(p) && Enabled(p, e)
    ensures Live(Apply(p, e)) ==
              match e
              case AddTask => Live(p) + {p.added}
              case Finish(w) => Live(p) - {p.workers[w].task}
              case _ => Live(p)
    ensures e.Finish? ==> p.workers[e.w].task in Live(p)
  {
    hide BusyTasks;
    hide Range;
    hide Conserved;
    LiveIsQueuedOrRunning(p);
    if e.Finish? {
      BusyAround(p.workers, e.w, Idle);
      assert p.workers[e.w].task in multiset(BusyTasks(p.workers));
    }
  }

  /** Once stopped, a pool starts nothing any more: what is queued then stays queued, whatever happens. */
  lemma {:induction false} NothingStartsAfterStop(p: Pool, es: seq<Event>)
    requires p.shouldStop && Exec(p, es).Some?
    ensures var q := Exec(p, es).value;
            q.shouldStop && q.started == p.started && p.tasks <= q.tasks
    decreases |es|
  {
    if es != [] {
      NothingStartsAfterStop(Apply(p, es[0]), es[1..]);
    }
  }

  lemma StepShrinks(p: Pool, e: Event)
    requires Inv(p) && Enabled(p, e)
    ensures var q := Apply(p, e);
            && (!e.Resize? ==> |q.workers| <= |p.workers|)
            && (|q.workers| < |p.workers| ==>
                  multiset(BusyTasks(q.workers)) == multiset(BusyTasks(p.workers)) && q.tasks == p.tasks
                  && (!p.shouldStop ==> |q.workers| >= q.maxThreads))
  {
    hide BusyTasks;
    hide Conserved;
    if e.Fetch? && ShouldStop(p) {
      BusyAround(p.workers, e.w, Idle);
    }
  }

  /** Only a resize adds workers; only a worker without a task is retired, and never below the target. */
  lemma WorkersShrinkSafely(es: seq<Event>, e: Event)
    requires Exec(Initial(), es).Some? && Enabled(Exec(Initial(), es).value, e)
    ensures var p := Exec(Initial(), es).value; var q := Apply(p, e);
            && q.runningThreads == |q.workers|
            && (!e.Resize? ==> |q.workers| <= |p.workers|)
            && (|q.workers| < |p.workers| ==>
                  multiset(BusyTasks(q.workers)) == multiset(BusyTasks(p.workers)) && q.tasks == p.tasks
                  && (!p.shouldStop ==> |q.workers| >= q.maxThreads))
  {
    EveryRun(es);
    var p := Exec(Initial(), es).value;
    StepKeeps(p, e);
    StepShrinks(p, e);
  }

  predicate WorkerEvent(e: Event) {
    e.Fetch? || e.Finish?
  }

  ghost function Work(p: Pool): nat {
    |p.workers| + |BusyTasks(p.workers)|
  }

  lemma BusySizes(ws: seq<Worker>, w: nat, x: Worker)
    requires w < |ws|
    ensures |BusyTasks(ws)| == |BusyTasks(ws[..w] + ws[w + 1..])| + |TasksOf(ws[w])|
    ensures |BusyTasks(ws[w := x])| == |BusyTasks(ws[..w] + ws[w + 1..])| + |TasksOf(x)|
  {
    hide BusyTasks, TasksOf;
    BusyAround(ws, w, x);
    SizeOfBag(BusyTasks(ws));
    SizeOfBag(BusyTasks(ws[w := x]));
    SizeOfBag(BusyTasks(ws[..w] + ws[w + 1..]));
    SizeOfBag(TasksOf(ws[w]));
    SizeOfBag(TasksOf(x));
  }

  lemma SizeOfBag(ts: seq<Task>)
    ensures |multiset(ts)| == |ts|
  {
  }

  lemma WorkDrops(p: Pool, e: Event)
    requires p.shouldStop && Enabled(p, e) && WorkerEvent(e)
    ensures Work(Apply(p, e)) < Work(p)
  {
    hide BusyTasks;
    BusySizes(p.workers, e.w, Idle);
  }

  /** A stopped pool is left by all its workers after a bounded number of their steps. */
  lemma {:induction false} StopCompletes(p: Pool, es: seq<Event>)
    requires p.shouldStop && Exec(p, es).Some? && forall e :: e in es ==> WorkerEvent(e)
    ensures |es| <= Work(p)
    ensures (forall e :: WorkerEvent(e) ==> !Enabled(Exec(p, es).value, e)) ==> Exec(p, es).value.workers == []
    decreases |es|
  {
    if es == [] {
      if p.workers != [] {
        assert Enabled(p, if p.workers[0].Idle? then Fetch(0) else Finish(0));
      }
    } else {
      WorkDrops(p, es[0]);
      StopCompletes(Apply(p, es[0]), es[1..]);
    }
  }

  /**
   No task is left behind: whatever the run, a pool that was not stopped and has
   no worker able to move has an empty queue, unless it was told to have no workers.
   */
  lemma NoTaskIsStuck(es: seq<Event>)
    requires Exec(Initial(), es).Some? && !Exec(Initial(), es).value.shouldStop
    requires forall e :: WorkerEvent(e) ==> !Enabled(Exec(Initial(), es).value, e)
    ensures var p := Exec(Initial(), es).value;
            && (p.tasks == [] || p.maxThreads == 0)
            && forall w :: 0 <= w < |p.workers| ==> p.workers[w] == Idle
  {
    EveryRun(es);
    var p := Exec(Initial(), es).value;
    forall w: nat | w < |p.workers| ensures p.workers[w] == Idle && p.tasks == [] {
      assert !Enabled(p, Fetch(w)) && !Enabled(p, Finish(w));
    }
    assert p.workers != [] ==> p.workers[0] == Idle;
  }

  ghost function Effort(p: Pool): nat {
    2 * |p.tasks| + Work(p)
  }

  lemma EffortDrops(p: Pool, e: Event)
    requires Enabled(p, e) && WorkerEvent(e)
    ensures Effort(Apply(p, e)) < Effort(p)
  {
    hide BusyTasks;
    BusySizes(p.workers, e.w, if e.Fetch? && p.tasks != [] then Busy(p.tasks[0]) else Idle);
  }

  lemma {:induction false} WorkersStop(p: Pool, es: seq<Event>)
    requires Exec(p, es).Some? && forall e :: e in es ==> WorkerEvent(e)
    ensures |es| + Effort(Exec(p, es).value) <= Effort(p)
    ensures var q := Exec(p, es).value;
            q.added == p.added && q.shouldStop == p.shouldStop && q.maxThreads == p.maxThreads
    decreases |es|
  {
    if es != [] {
      EffortDrops(p, es[0]);
      hide Effort;
      WorkersStop(Apply(p, es[0]), es[1..]);
    }
  }

  lemma {:induction false} ExecThen(p: Pool, xs: seq<Event>, ys: seq<Event>)
    requires Exec(p, xs).Some?
    ensures Exec(p, xs + ys) == Exec(Exec(p, xs).value, ys)
    decreases |xs|
  {
    hide Apply, Enabled;
    if xs == [] {
      assert xs + ys == ys;
    } else {
      ExecThen(Apply(p, xs[0]), xs[1..], ys);
      assert (xs + ys)[1..] == xs[1..] + ys;
    }
  }

  lemma {:induction false} IdleHoldNothing(ws: seq<Worker>)
    requires forall w :: 0 <= w < |ws| ==> ws[w] == Idle
    ensures BusyTasks(ws) == []
  {
    if ws != [] {
      IdleHoldNothing(ws[1..]);
    }
  }

  /**
   Left to its workers a pool comes to rest after a bounded number of their steps,
   whichever they take; if it was not stopped, every task added is then finished,
   unless it was told to have no workers.
   */
  lemma WorkersFinishEverything(before: seq<Event>, p: Pool, es: seq<Event>, q: Pool)
    requires Exec(Initial(), before) == Some(p)
    requires Exec(p, es) == Some(q) && forall e :: e in es ==> WorkerEvent(e)
    ensures |es| <= Effort(p)
    ensures (forall e :: WorkerEvent(e) ==> !Enabled(q, e)) && !p.shouldStop && p.maxThreads > 0 ==>
              q.added == p.added && multiset(q.finished) == multiset(Range(p.added))
  {
    WorkersStop(p, es);
    ExecThen(Initial(), before, es);
    hide Exec, Effort, Range;
    if (forall e :: WorkerEvent(e) ==> !Enabled(q, e)) && !p.shouldStop && p.maxThreads > 0 {
      NoTaskIsStuck(before + es);
      EveryRun(before + es);
      IdleHoldNothing(q.workers);
      assert q.started + [] == q.started;
    }
  }

  /**
   Whatever happens after a stop, nothing is started any more and what is queued stays
   queued; and once the workers can go no further there is none left.
   */
  lemma StopIsFinal(p: Pool, es: seq<Event>, q: Pool)
    requires Exec(Apply(p, Event.Stop), es) == Some(q)
    ensures q.started == p.started && p.tasks <= q.tasks
    ensures (forall e :: WorkerEvent(e) ==> !Enabled(q, e)) ==> q.workers == []
  {
    var r := Apply(p, Event.Stop);
    NothingStartsAfterStop(r, es);
    StopCompletes(q, []);
  }

  lemma AtRestWorkers(p: Pool)
    requires Counted(p) && !p.shouldStop && forall e :: WorkerEvent(e) ==> !Enabled(p, e)
    ensures |p.workers| == p.maxThreads
  {
    assert !Enabled(p, Fetch(0)) && !Enabled(p, Finish(0));
  }

  /**
   A pool that was not stopped and is told a number of workers has at once as many as
   that or as before, whichever is more, the old ones undisturbed and the new ones idle;
   and once its workers can go no further, whichever steps they took, exactly that many.
   */
  lemma ResizeReaches(before: seq<Event>, p: Pool, n: nat, es: seq<Event>, q: Pool)
    requires Exec(Initial(), before) == Some(p) && !p.shouldStop
    requires Exec(Apply(p, Resize(n)), es) == Some(q) && forall e :: e in es ==> WorkerEvent(e)
    ensures var r := Apply(p, Resize(n));
            && |r.workers| == (if n > |p.workers| then n else |p.workers|)
            && p.workers <= r.workers && (forall w :: |p.workers| <= w < |r.workers| ==> r.workers[w] == Idle)
            && r.tasks == p.tasks && r.started == p.started && r.finished == p.finished
            && |es| <= Effort(r)
    ensures (forall e :: WorkerEvent(e) ==> !Enabled(q, e)) ==> |q.workers| == n
  {
    var r := Apply(p, Resize(n));
    EveryRun(before);
    StepKeeps(p, Resize(n));
    WorkersStop(r, es);
    RunKeeps(r, es);
    hide Exec, Effort, Conserved;
    if forall e :: WorkerEvent(e) ==> !Enabled(q, e) {
      AtRestWorkers(q);
    }
  }

  lemma {:induction false} RunGoesOn(p: Pool, es: seq<Event>, q: Pool, e: Event)
    requires Exec(p, es) == Some(q) && Enabled(q, e)
    ensures Exec(p, es + [e]) == Some(Apply(q, e))
    decreases |es|
  {
    hide Apply, Enabled;
    if es == [] {
      assert (es + [e])[1..] == [];
    } else {
      assert (es + [e])[1..] == es[1..] + [e];
      RunGoesOn(Apply(p, es[0]), es[1..], q, e);
    }
  }

  lemma BusyWorker(p: Pool, t: Task) returns (w: nat)
    requires t in BusyTasks(p.workers)
    ensures Enabled(p, Finish(w)) && p.workers[w].task == t
  {
    w := FindBusy(p.workers, t);
  }

  lemma {:induction false} FindBusy(ws: seq<Worker>, t: Task) returns (w: nat)
    requires t in BusyTasks(ws)
    ensures w < |ws| && ws[w] == Busy(t)
  {
    if ws[0] == Busy(t) {
      w := 0;
    } else {
      assert t in BusyTasks(ws[1..]);
      var v := FindBusy(ws[1..], t);
      w := v + 1;
    }
  }

  lemma CompleteFrees(p: Pool, w: nat)
    requires Enabled(p, Finish(w))
    ensures |BusyTasks(Complete(p, w).workers)| < |BusyTasks(p.workers)|
  {
    hide BusyTasks;
    BusySizes(p.workers, w, Idle);
  }

  // --- The object -----------------------------------------------------------------

  class ThreadPool {
    var workers: seq<Worker>
    var maxNbThreads: nat
    var nbRunningThreads: int
    var shouldStop: bool
    var tasks: seq<Task>
    ghost var added: nat
    ghost var started: seq<Task>
    ghost var finished: seq<Task>
    ghost var startedAtStop: nat

    ghost function Now(): Pool
      reads this
    {
      Pool(tasks, workers, maxNbThreads, nbRunningThreads, shouldStop, added, started, finished, startedAtStop)
    }

    constructor (nbThreads: nat)
      ensures Now() == SetThreads(Initial(), nbThreads)
    {
      workers, maxNbThreads, nbRunningThreads, shouldStop, tasks := [], 0, 0, false, [];
      added, started, finished, startedAtStop := 0, [], [], 0;
      new;
      SetNbThreads(nbThreads);
    }

    // A task is known by its number in the order of adding.
    method Enqueue(t: Task)
      requires t == added
      modifies this
      ensures Now() == Add(old(Now()))
    {
      tasks := tasks + [t];
      added := added + 1;
    }

    // What worker w gets when it asks for work: leave, or a task.
    method FetchTaskOrStop(w: nat) returns (stopped: bool, task: Option<Task>)
      requires Enabled(Now(), Fetch(w))
      modifies this
      ensures Now() == Apply(old(Now()), Fetch(w))
      ensures stopped == ShouldStop(old(Now()))
      ensures task == if stopped then None else Some(old(tasks)[0])
    {
      if shouldStop || nbRunningThreads > maxNbThreads {
        workers := workers[..w] + workers[w + 1..];
        nbRunningThreads := nbRunningThreads - 1;
        return true, None;
      }
      var t := tasks[0];
      workers, tasks := workers[w := Busy(t)], tasks[1..];
      started := started + [t];
      return false, Some(t);
    }

    method TaskDone(w: nat)
      requires Enabled(Now(), Finish(w))
      modifies this
      ensures Now() == Apply(old(Now()), Finish(w))
    {
      finished := finished + [workers[w].task];
      workers := workers[w := Idle];
    }

    method RequestStop()
      modifies this
      ensures Now() == Halt(old(Now()))
    {
      startedAtStop := if shouldStop then startedAtStop else |started|;
      shouldStop := true;
    }

    // Sets the flag and waits for the workers to leave, in whatever order they come:
    // running tasks are completed, queued ones stay behind.
    method Stop() returns (ghost es: seq<Event>)
      requires Inv(Now())
      modifies this
      ensures Inv(Now()) && shouldStop && workers == []
      ensures Exec(Halt(old(Now())), es) == Some(Now()) && forall e :: e in es ==> WorkerEvent(e)
      ensures tasks == old(tasks) && started == old(started) && multiset(finished) == multiset(started)
    {
      StepKeeps(Now(), Event.Stop);
      RequestStop();
      es := [];
      while workers != []
        invariant Inv(Now()) && shouldStop && tasks == old(tasks) && started == old(started)
        invariant Exec(Halt(old(Now())), es) == Some(Now())
        invariant forall e :: e in es ==> WorkerEvent(e)
        decreases Work(Now())
      {
        hide Inv, Exec, Work, Halt;
        var w: nat :| w < |workers|;
        ghost var e := if workers[w].Idle? then Fetch(w) else Finish(w);
        StepKeeps(Now(), e);
        WorkDrops(Now(), e);
        RunGoesOn(Halt(old(Now())), es, Now(), e);
        if workers[w].Idle? {
          var stopped, task := FetchTaskOrStop(w);
        } else {
          TaskDone(w);
        }
        es := es + [e];
      }
      assert multiset(BusyTasks([])) == multiset{};
    }

    // Spawn workers until there are enough; surplus workers retire when they next ask for work.
    method SetNbThreads(nbThreads: nat)
      modifies this
      ensures Now() == SetThreads(old(Now()), nbThreads)
    {
      maxNbThreads := nbThreads;
      ghost var before := workers;
      ghost var n := 0;
      while nbRunningThreads < maxNbThreads
        invariant nbRunningThreads == old(nbRunningThreads) + n
        invariant n > 0 ==> nbRunningThreads <= maxNbThreads
        invariant Now() == old(Now()).(maxThreads := nbThreads, runningThreads := nbRunningThreads, workers := workers)
        invariant workers == before + Idles(n)
        decreases maxNbThreads - nbRunningThreads
      {
        nbRunningThreads := nbRunningThreads + 1;
        workers := workers + [Idle];
        assert before + Idles(n) + [Idle] == before + Idles(n + 1);
        n := n + 1;
      }
      assert before + [] == before;
    }
  }
}
