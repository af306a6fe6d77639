/**
 The polling service of the network library together with its callback workers:
 which sockets are tracked, which callbacks are queued or running, and when an
 entry may go. Each region guarded by the service's mutex is one step.
 */
module IoServices {
  import opened Wrappers
  import Lists
  import Pools = ThreadPools

  type Fd = nat
  type Callback = nat

  datatype Side = Read | Write

  datatype Tracked = Tracked(
    rdCallback: Option<Callback>,
    isExecutingRd: bool,
    wrCallback: Option<Callback>,
    isExecutingWr: bool,
    markedForUntrack: bool)

  // What a worker runs: the callback registered when the event was reported.
  datatype Job = Job(fd: Fd, side: Side, callback: Callback)

  // jobs[t] is what task t of the pool runs.
  datatype Service = Service(tracked: map<Fd, Tracked>, jobs: seq<Job>, pool: Pools.Pool)

  datatype Event =
    | Track(fd: Fd, rd: Option<Callback>, wr: Option<Callback>)
    | SetCallback(fd: Fd, side: Side, callback: Option<Callback>)
    | Untrack(fd: Fd)
    | Ready(fd: Fd, side: Side)
    | Wake(fd: Fd)
    | Finish(w: nat)
    | Workers(change: Pools.Event)

  function Initial(nbWorkers: nat): Service {
    Service(map[], [], Pools.SetThreads(Pools.Initial(), nbWorkers))
  }

  function CallbackOf(t: Tracked, side: Side): Option<Callback> {
    if side.Read? then t.rdCallback else t.wrCallback
  }

  function Executing(t: Tracked, side: Side): bool {
    if side.Read? then t.isExecutingRd else t.isExecutingWr
  }

  function WithCallback(t: Tracked, side: Side, callback: Option<Callback>): Tracked {
    if side.Read? then t.(rdCallback := callback) else t.(wrCallback := callback)
  }

  function WithExecuting(t: Tracked, side: Side, executing: bool): Tracked {
    if side.Read? then t.(isExecutingRd := executing) else t.(isExecutingWr := executing)
  }

  // The entry of a socket, made when there is none.
  function Entry(m: map<Fd, Tracked>, fd: Fd): Tracked {
    if fd in m then m[fd] else Tracked(None, false, None, false, false)
  }

  predicate Removable(m: map<Fd, Tracked>, fd: Fd) {
    fd in m && m[fd].markedForUntrack && !m[fd].isExecutingRd && !m[fd].isExecutingWr
  }

  // A marked entry goes when no callback of its socket executes.
  function Settle(m: map<Fd, Tracked>, fd: Fd): map<Fd, Tracked> {
    if Removable(m, fd) then m - {fd} else m
  }

  predicate Enabled(s: Service, e: Event) {
    match e
    case Ready(fd, side) => fd in s.tracked && CallbackOf(s.tracked[fd], side).Some? && !Executing(s.tracked[fd], side)
    case Finish(w) => Pools.Enabled(s.pool, Pools.Finish(w)) && s.pool.workers[w].task < |s.jobs|
    case Workers(change) => !change.AddTask? && !change.Finish? && Pools.Enabled(s.pool, change)
    case _ => true
  }

  function Report(s: Service, fd: Fd, side: Side): Service
    requires Enabled(s, Ready(fd, side))
  {
    Service(
      s.tracked[fd := WithExecuting(s.tracked[fd], side, true)],
      s.jobs + [Job(fd, side, CallbackOf(s.tracked[fd], side).value)],
      Pools.Add(s.pool))
  }

  function Return(m: map<Fd, Tracked>, fd: Fd, side: Side): map<Fd, Tracked> {
    if fd in m then Settle(m[fd := WithExecuting(m[fd], side, false)], fd) else m
  }

  function Apply(s: Service, e: Event): Service
    requires Enabled(s, e)
  {
    match e
    case Track(fd, rd, wr) =>
      var entry := Entry(s.tracked, fd).(rdCallback := rd, wrCallback := wr, markedForUntrack := false);
      s.(tracked := s.tracked[fd := entry])
    case SetCallback(fd, side, callback) =>
      s.(tracked := s.tracked[fd := WithCallback(Entry(s.tracked, fd), side, callback)])
    case Untrack(fd) =>
      if fd in s.tracked then s.(tracked := s.tracked[fd := s.tracked[fd].(markedForUntrack := true)]) else s
    case Ready(fd, side) => Report(s, fd, side)
    case Wake(fd) => s.(tracked := Settle(s.tracked, fd))
    case Finish(w) =>
      var job := s.jobs[s.pool.workers[w].task];
      s.(tracked := Return(s.tracked, job.fd, job.side), pool := Pools.Complete(s.pool, w))
    case Workers(change) => s.(pool := Pools.Apply(s.pool, change))
  }

  function Exec(s: Service, es: seq<Event>): Option<Service>
    decreases |es|
  {
    if es == [] then Some(s)
    else if !Enabled(s, es[0]) then None
    else Exec(Apply(s, es[0]), es[1..])
  }

  // --- Invariant ----------------------------------------------------------------

  predicate Flagged(m: map<Fd, Tracked>, fd: Fd, side: Side) {
    fd in m && Executing(m[fd], side)
  }

  predicate Serves(jobs: seq<Job>, t: Pools.Task, fd: Fd, side: Side) {
    t < |jobs| && jobs[t].fd == fd && jobs[t].side == side
  }

  // A socket's flag is set exactly while one task for it is queued or running.
  ghost predicate Wired(m: map<Fd, Tracked>, jobs: seq<Job>, live: set<Pools.Task>) {
    && (forall t :: t in live ==> t < |jobs| && Flagged(m, jobs[t].fd, jobs[t].side))
    && (forall t, u, fd, side ::
          t in live && u in live && Serves(jobs, t, fd, side) && Serves(jobs, u, fd, side) ==> t == u)
    && (forall fd, side :: Flagged(m, fd, side) ==> exists t :: t in live && Serves(jobs, t, fd, side))
  }

  ghost predicate Inv(s: Service) {
    Pools.Inv(s.pool) && |s.jobs| == s.pool.added && Wired(s.tracked, s.jobs, Pools.Live(s.pool))
  }

  lemma SameFlagsKeepWired(m: map<Fd, Tracked>, n: map<Fd, Tracked>, jobs: seq<Job>, live: set<Pools.Task>)
    requires Wired(m, jobs, live)
    requires forall fd, side :: Flagged(n, fd, side) == Flagged(m, fd, side)
    ensures Wired(n, jobs, live)
  {
  }

  lemma ReportKeepsWired(s: Service, fd: Fd, side: Side, live: set<Pools.Task>)
    requires Wired(s.tracked, s.jobs, live) && Enabled(s, Ready(fd, side))
    ensures Wired(Report(s, fd, side).tracked, Report(s, fd, side).jobs, live + {|s.jobs|})
  {
    var m, jobs := Report(s, fd, side).tracked, Report(s, fd, side).jobs;
    var now := live + {|s.jobs|};
    assert forall f, d :: Flagged(m, f, d) == (Flagged(s.tracked, f, d) || (f == fd && d == side));
    assert Serves(jobs, |s.jobs|, fd, side);
    forall t | t in now ensures t < |jobs| && Flagged(m, jobs[t].fd, jobs[t].side) {
      if t != |s.jobs| { assert Flagged(s.tracked, s.jobs[t].fd, s.jobs[t].side); }
    }
    forall t, u, f, d | t in now && u in now && Serves(jobs, t, f, d) && Serves(jobs, u, f, d) ensures t == u {
      assert t != |s.jobs| ==> Serves(s.jobs, t, f, d);
      assert u != |s.jobs| ==> Serves(s.jobs, u, f, d);
    }
    forall f, d | Flagged(m, f, d) ensures exists t :: t in now && Serves(jobs, t, f, d) {
      if f == fd && d == side {
        assert |s.jobs| in now;
      } else {
        var t :| t in live && Serves(s.jobs, t, f, d);
        assert t in now && Serves(jobs, t, f, d);
      }
    }
  }

  lemma ReturnKeepsWired(m: map<Fd, Tracked>, jobs: seq<Job>, live: set<Pools.Task>, t: Pools.Task)
    requires Wired(m, jobs, live) && t in live
    ensures Wired(Return(m, jobs[t].fd, jobs[t].side), jobs, live - {t})
  {
    var fd, side := jobs[t].fd, jobs[t].side;
    var n := Return(m, fd, side);
    assert Serves(jobs, t, fd, side);
    assert forall f, d :: Flagged(n, f, d) == (Flagged(m, f, d) && !(f == fd && d == side));
    forall u | u in live - {t} ensures Flagged(n, jobs[u].fd, jobs[u].side) {
      assert Serves(jobs, u, jobs[u].fd, jobs[u].side);
    }
    forall f, d | Flagged(n, f, d) ensures exists u :: u in live - {t} && Serves(jobs, u, f, d) {
      var u :| u in live && Serves(jobs, u, f, d);
      assert u in live - {t};
    }
  }

  lemma StepKeeps(s: Service, e: Event)
    requires Inv(s) && Enabled(s, e)
    ensures Inv(Apply(s, e))
  {
    hide Pools.Inv;
    hide Wired;
    hide Pools.Live;
    var live := Pools.Live(s.pool);
    match e
    case Ready(fd, side) =>
      Pools.StepKeeps(s.pool, Pools.AddTask);
      Pools.LiveAfter(s.pool, Pools.AddTask);
      ReportKeepsWired(s, fd, side, live);
    case Finish(w) =>
      Pools.StepKeeps(s.pool, Pools.Finish(w));
      Pools.LiveAfter(s.pool, Pools.Finish(w));
      ReturnKeepsWired(s.tracked, s.jobs, live, s.pool.workers[w].task);
    case Workers(change) =>
      Pools.StepKeeps(s.pool, change);
      Pools.LiveAfter(s.pool, change);
    case _ =>
      SameFlagsKeepWired(s.tracked, Apply(s, e).tracked, s.jobs, live);
  }

  lemma {:induction false} RunKeeps(s: Service, es: seq<Event>)
    requires Inv(s)
    ensures Exec(s, es).Some? ==> Inv(Exec(s, es).value)
    decreases |es|
  {
    if es != [] && Enabled(s, es[0]) {
      StepKeeps(s, es[0]);
      RunKeeps(Apply(s, es[0]), es[1..]);
    }
  }

  ghost predicate Reachable(nbWorkers: nat, es: seq<Event>, s: Service) {
    Exec(Initial(nbWorkers), es) == Some(s)
  }

  lemma EveryRun(nbWorkers: nat, es: seq<Event>, s: Service)
    requires Reachable(nbWorkers, es, s)
    ensures Inv(s)
  {
    var p := Pools.Initial();
    Pools.StepKeeps(p, Pools.Resize(nbWorkers));
    Pools.LiveAfter(p, Pools.Resize(nbWorkers));
    assert Pools.Live(p) == {};
    RunKeeps(Initial(nbWorkers), es);
  }

  // --- Main results -----------------------------------------------------------------

  // Task t serves the socket and is queued or executing.
  ghost predicate InFlight(s: Service, t: Pools.Task, fd: Fd) {
    && t < |s.jobs| && s.jobs[t].fd == fd
    && (t in s.pool.tasks || t in Pools.BusyTasks(s.pool.workers))
  }

  ghost predicate Quiet(s: Service, fd: Fd) {
    forall t :: !InFlight(s, t, fd)
  }

  lemma QuietIffUnflagged(s: Service, fd: Fd)
    requires Inv(s)
    ensures Quiet(s, fd) <==> !Flagged(s.tracked, fd, Read) && !Flagged(s.tracked, fd, Write)
  {
    Pools.LiveIsQueuedOrRunning(s.pool);
    forall t: Pools.Task | InFlight(s, t, fd) ensures !Quiet(s, fd) && Flagged(s.tracked, fd, s.jobs[t].side) {
    }
    forall side | Flagged(s.tracked, fd, side) ensures !Quiet(s, fd) {
      var t :| t in Pools.Live(s.pool) && Serves(s.jobs, t, fd, side);
      assert InFlight(s, t, fd);
    }
  }

  /**
   An entry goes only if it was marked, at a wake-up of the poll or at the return
   of a callback of that socket, and then no callback of the socket is queued or executing.
   */
  lemma RemovedOnlyWhenQuiet(nbWorkers: nat, es: seq<Event>, s: Service, e: Event, fd: Fd)
    requires Reachable(nbWorkers, es, s) && Enabled(s, e)
    requires fd in s.tracked && fd !in Apply(s, e).tracked
    ensures s.tracked[fd].markedForUntrack
    ensures e == Wake(fd) || (e.Finish? && s.jobs[s.pool.workers[e.w].task].fd == fd)
    ensures Quiet(Apply(s, e), fd)
  {
    hide Inv;
    hide Quiet;
    EveryRun(nbWorkers, es, s);
    StepKeeps(s, e);
    QuietIffUnflagged(Apply(s, e), fd);
  }

  /** Waiting for removal ends with the entry gone, and then nothing of that socket is in flight. */
  lemma UntrackedIsQuiet(nbWorkers: nat, es: seq<Event>, s: Service, fd: Fd)
    requires Reachable(nbWorkers, es, s) && fd !in s.tracked
    ensures Quiet(s, fd)
  {
    EveryRun(nbWorkers, es, s);
    QuietIffUnflagged(s, fd);
  }

  /** A wake-up of the poll removes a socket exactly if it is marked and nothing of it is in flight. */
  lemma WakeRemovesIff(nbWorkers: nat, es: seq<Event>, s: Service, fd: Fd)
    requires Reachable(nbWorkers, es, s) && fd in s.tracked
    ensures fd !in Apply(s, Wake(fd)).tracked <==> s.tracked[fd].markedForUntrack && Quiet(s, fd)
  {
    EveryRun(nbWorkers, es, s);
    QuietIffUnflagged(s, fd);
  }

  /** Tracking a socket again cancels a pending removal: it stays until somebody untracks it. */
  lemma RetrackCancels(s: Service, fd: Fd, rd: Option<Callback>, wr: Option<Callback>, es: seq<Event>)
    requires Untrack(fd) !in es && Exec(s, [Track(fd, rd, wr)] + es).Some?
    ensures fd in Exec(s, [Track(fd, rd, wr)] + es).value.tracked
  {
    assert ([Track(fd, rd, wr)] + es)[1..] == es;
    UnmarkedStays(Apply(s, Track(fd, rd, wr)), fd, es);
  }

  lemma {:induction false} UnmarkedStays(s: Service, fd: Fd, es: seq<Event>)
    requires fd in s.tracked && !s.tracked[fd].markedForUntrack
    requires Untrack(fd) !in es && Exec(s, es).Some?
    ensures fd in Exec(s, es).value.tracked && !Exec(s, es).value.tracked[fd].markedForUntrack
    decreases |es|
  {
    if es != [] {
      UnmarkedStays(Apply(s, es[0]), fd, es[1..]);
    }
  }

  predicate Touches(e: Event, fd: Fd) {
    (e.Track? || e.SetCallback?) && e.fd == fd
  }

  lemma {:induction false} MarkStays(s: Service, fd: Fd, es: seq<Event>)
    requires fd in s.tracked ==> s.tracked[fd].markedForUntrack
    requires (forall e :: e in es ==> !Touches(e, fd)) && Exec(s, es).Some?
    ensures fd in Exec(s, es).value.tracked ==> Exec(s, es).value.tracked[fd].markedForUntrack
    decreases |es|
  {
    if es != [] {
      assert !Touches(es[0], fd);
      MarkStays(Apply(s, es[0]), fd, es[1..]);
    }
  }

  /** Untracking completes: once the socket's callbacks are done, the next wake-up leaves no entry. */
  lemma UntrackCompletes(nbWorkers: nat, before: seq<Event>, s: Service, fd: Fd, es: seq<Event>, q: Service)
    requires Reachable(nbWorkers, before, s)
    requires (forall e :: e in es ==> !Touches(e, fd)) && Exec(s, [Untrack(fd)] + es) == Some(q)
    ensures Quiet(q, fd) ==> fd !in Apply(q, Wake(fd)).tracked
  {
    hide Inv;
    hide Quiet;
    EveryRun(nbWorkers, before, s);
    RunKeeps(s, [Untrack(fd)] + es);
    QuietIffUnflagged(q, fd);
    assert ([Untrack(fd)] + es)[1..] == es;
    MarkStays(Apply(s, Untrack(fd)), fd, es);
  }

  lemma {:induction false} CallbacksStay(s: Service, fd: Fd, es: seq<Event>, q: Service)
    requires (forall e :: e in es ==> !Touches(e, fd)) && Exec(s, es) == Some(q) && fd in q.tracked
    ensures fd in s.tracked
    ensures forall side :: CallbackOf(q.tracked[fd], side) == CallbackOf(s.tracked[fd], side)
    decreases |es|
  {
    if es != [] {
      assert !Touches(es[0], fd);
      CallbacksStay(Apply(s, es[0]), fd, es[1..], q);
    }
  }

  // What an event registers for one side of its socket.
  function Registered(e: Event, side: Side): Option<Callback>
    requires e.Track? || e.SetCallback?
  {
    match e
    case Track(_, rd, wr) => if side.Read? then rd else wr
    case SetCallback(_, _, callback) => callback
  }

  /** An event on a socket runs the callback registered last for its side, whatever happened in between. */
  lemma LatestCallbackRuns(s: Service, e: Event, side: Side, es: seq<Event>, q: Service)
    requires e.Track? || (e.SetCallback? && e.side == side)
    requires (forall x :: x in es ==> !Touches(x, e.fd)) && Exec(s, [e] + es) == Some(q)
    requires Enabled(q, Ready(e.fd, side))
    ensures Registered(e, side).Some?
    ensures Apply(q, Ready(e.fd, side)).jobs == q.jobs + [Job(e.fd, side, Registered(e, side).value)]
  {
    assert ([e] + es)[1..] == es;
    CallbacksStay(Apply(s, e), e.fd, es, q);
    assert CallbackOf(q.tracked[e.fd], side) == Registered(e, side);
  }

  lemma {:induction false} JobsStay(s: Service, es: seq<Event>)
    requires Exec(s, es).Some?
    ensures s.jobs <= Exec(s, es).value.jobs
    decreases |es|
  {
    if es != [] {
      JobsStay(Apply(s, es[0]), es[1..]);
    }
  }

  /** After a stop the sockets of queued callbacks stay tracked for ever: waiting for their removal never ends. */
  lemma StoppedStaysTracked(nbWorkers: nat, es: seq<Event>, s: Service, t: Pools.Task, fs: seq<Event>, q: Service)
    requires Reachable(nbWorkers, es, s) && s.pool.shouldStop
    requires t in s.pool.tasks && t < |s.jobs| && Exec(s, fs) == Some(q)
    ensures s.jobs[t].fd in q.tracked
  {
    EveryRun(nbWorkers, es, s);
    RunsItsPool(s, fs);
    Pools.NothingStartsAfterStop(s.pool, PoolEvents(s, fs));
    JobsStay(s, fs);
    RunKeeps(s, fs);
    hide Inv;
    assert InFlight(q, t, s.jobs[t].fd);
    QuietIffUnflagged(q, s.jobs[t].fd);
  }

  // No queued callback is for the socket.
  ghost predicate NoneQueued(s: Service, fd: Fd) {
    forall t :: t in s.pool.tasks && t < |s.jobs| ==> s.jobs[t].fd != fd
  }

  lemma FinishStays(s: Service, w: nat, fd: Fd)
    requires Enabled(s, Finish(w)) && NoneQueued(s, fd) && (fd in s.tracked ==> s.tracked[fd].markedForUntrack)
    ensures var q := Apply(s, Finish(w));
            && NoneQueued(q, fd) && (fd in q.tracked ==> q.tracked[fd].markedForUntrack)
            && |Pools.BusyTasks(q.pool.workers)| < |Pools.BusyTasks(s.pool.workers)|
  {
    Pools.CompleteFrees(s.pool, w);
    hide Pools.BusyTasks;
  }

  /** A marked socket without a queued callback can go, in any state: its callbacks return and the poll wakes up. */
  lemma {:induction false} MarkedCanGo(s: Service, fd: Fd) returns (es: seq<Event>, q: Service)
    requires Inv(s) && NoneQueued(s, fd) && (fd in s.tracked ==> s.tracked[fd].markedForUntrack)
    ensures Exec(s, es) == Some(q) && fd !in q.tracked
    decreases |Pools.BusyTasks(s.pool.workers)|
  {
    hide Inv, Pools.BusyTasks;
    QuietIffUnflagged(s, fd);
    if Quiet(s, fd) {
      es, q := [Wake(fd)], Apply(s, Wake(fd));
      assert Exec(q, []) == Some(q);
    } else {
      var t: Pools.Task :| InFlight(s, t, fd);
      var w := Pools.BusyWorker(s.pool, t);
      var e := Finish(w);
      FinishStays(s, w, fd);
      StepKeeps(s, e);
      hide Apply;
      es, q := MarkedCanGo(Apply(s, e), fd);
      assert ([e] + es)[1..] == es;
      es := [e] + es;
    }
  }

  /** After a stop, a marked socket can still be removed exactly if none of its callbacks is queued. */
  lemma StoppedRemovalIff(nbWorkers: nat, es: seq<Event>, s: Service, fd: Fd)
    requires Reachable(nbWorkers, es, s) && s.pool.shouldStop && fd in s.tracked && s.tracked[fd].markedForUntrack
    ensures (exists fs, q :: Exec(s, fs) == Some(q) && fd !in q.tracked) <==> NoneQueued(s, fd)
  {
    EveryRun(nbWorkers, es, s);
    hide Inv, Exec;
    if NoneQueued(s, fd) {
      var fs, q := MarkedCanGo(s, fd);
    } else {
      var t :| t in s.pool.tasks && t < |s.jobs| && s.jobs[t].fd == fd;
      forall fs, q | Exec(s, fs) == Some(q) ensures fd in q.tracked {
        StoppedStaysTracked(nbWorkers, es, s, t, fs, q);
      }
    }
  }

  /** No socket has two callbacks for the same side in flight. */
  lemma OneCallbackPerSide(nbWorkers: nat, es: seq<Event>, s: Service, t: Pools.Task, u: Pools.Task, fd: Fd)
    requires Reachable(nbWorkers, es, s) && InFlight(s, t, fd) && InFlight(s, u, fd)
    requires s.jobs[t].side == s.jobs[u].side
    ensures t == u
  {
    EveryRun(nbWorkers, es, s);
    Pools.LiveIsQueuedOrRunning(s.pool);
    assert Serves(s.jobs, t, fd, s.jobs[t].side) && Serves(s.jobs, u, fd, s.jobs[t].side);
  }

  // What a run of the service asks of its pool.
  function PoolEvents(s: Service, es: seq<Event>): seq<Pools.Event>
    requires Exec(s, es).Some?
    decreases |es|
  {
    if es == [] then []
    else
      (match es[0]
       case Ready(_, _) => [Pools.AddTask]
       case Finish(w) => [Pools.Finish(w)]
       case Workers(change) => [change]
       case _ => []) + PoolEvents(Apply(s, es[0]), es[1..])
  }

  /** A run of the service drives its pool through a run of the pool, so what holds of every pool run holds here. */
  lemma {:induction false} RunsItsPool(s: Service, es: seq<Event>)
    requires Exec(s, es).Some?
    ensures Pools.Exec(s.pool, PoolEvents(s, es)) == Some(Exec(s, es).value.pool)
    decreases |es|
  {
    if es != [] {
      RunsItsPool(Apply(s, es[0]), es[1..]);
      assert forall x: Pools.Event, xs :: ([x] + xs)[1..] == xs;
      var rest := PoolEvents(Apply(s, es[0]), es[1..]);
      assert [] + rest == rest;
    }
  }

  /** Callbacks start in the order their events were reported. */
  lemma CallbacksStartInOrder(nbWorkers: nat, es: seq<Event>, s: Service)
    requires Reachable(nbWorkers, es, s)
    ensures s.pool.started + s.pool.tasks == Lists.Range(|s.jobs|)
  {
    EveryRun(nbWorkers, es, s);
  }

  // --- The object ---------------------------------------------------------------------

  // An event the poll may report for a socket is taken up unless its callback is missing or executing.
  function ReportIf(s: Service, reported: bool, fd: Fd, side: Side): Service {
    if reported && Enabled(s, Ready(fd, side)) then Report(s, fd, side) else s
  }

  function Visit(s: Service, fd: Fd, readable: set<Fd>, writable: set<Fd>): Service {
    Apply(ReportIf(ReportIf(s, fd in readable, fd, Read), fd in writable, fd, Write), Wake(fd))
  }

  function VisitAll(s: Service, polled: seq<Fd>, readable: set<Fd>, writable: set<Fd>): Service
    decreases |polled|
  {
    if polled == [] then s else VisitAll(Visit(s, polled[0], readable, writable), polled[1..], readable, writable)
  }

  lemma {:induction false} ExecThen(s: Service, xs: seq<Event>, ys: seq<Event>)
    requires Exec(s, xs).Some?
    ensures Exec(s, xs + ys) == Exec(Exec(s, xs).value, ys)
    decreases |xs|
  {
    if xs == [] {
      assert xs + ys == ys;
    } else {
      ExecThen(Apply(s, xs[0]), xs[1..], ys);
      assert (xs + ys)[1..] == xs[1..] + ys;
    }
  }

  lemma ReportIsRun(s: Service, reported: bool, fd: Fd, side: Side) returns (es: seq<Event>)
    ensures Exec(s, es) == Some(ReportIf(s, reported, fd, side))
  {
    es := if reported && Enabled(s, Ready(fd, side)) then [Ready(fd, side)] else [];
  }

  lemma VisitIsRun(s: Service, fd: Fd, readable: set<Fd>, writable: set<Fd>) returns (es: seq<Event>)
    ensures Exec(s, es) == Some(Visit(s, fd, readable, writable))
  {
    hide Apply;
    hide ReportIf;
    var rd := ReportIsRun(s, fd in readable, fd, Read);
    var q := Exec(s, rd).value;
    var wr := ReportIsRun(q, fd in writable, fd, Write);
    var r := Exec(q, wr).value;
    assert Exec(r, [Wake(fd)]) == Some(Apply(r, Wake(fd)));
    ExecThen(q, wr, [Wake(fd)]);
    ExecThen(s, rd, wr + [Wake(fd)]);
    es := rd + (wr + [Wake(fd)]);
  }

  /** One round of the poll is a run, so every result about runs covers it. */
  lemma {:induction false} RoundIsRun(s: Service, polled: seq<Fd>, readable: set<Fd>, writable: set<Fd>)
    returns (es: seq<Event>)
    ensures Exec(s, es) == Some(VisitAll(s, polled, readable, writable))
    decreases |polled|
  {
    if polled == [] {
      es := [];
    } else {
      var first := VisitIsRun(s, polled[0], readable, writable);
      var rest := RoundIsRun(Exec(s, first).value, polled[1..], readable, writable);
      ExecThen(s, first, rest);
      es := first + rest;
    }
  }

  /** After a round of the poll no polled socket is left that could be removed. */
  lemma {:induction false} RoundForgets(s: Service, polled: seq<Fd>, readable: set<Fd>, writable: set<Fd>, fd: Fd)
    requires fd in polled || !Removable(s.tracked, fd)
    ensures !Removable(VisitAll(s, polled, readable, writable).tracked, fd)
    decreases |polled|
  {
    if polled != [] {
      RoundForgets(Visit(s, polled[0], readable, writable), polled[1..], readable, writable, fd);
    }
  }

  class IoService {
    var trackedSockets: map<Fd, Tracked>
    var jobs: seq<Job>
    const callbackWorkers: Pools.ThreadPool

    ghost function Now(): Service
      reads this, callbackWorkers
    {
      Service(trackedSockets, jobs, callbackWorkers.Now())
    }

    constructor (nbWorkers: nat)
      ensures Now() == Initial(nbWorkers) && fresh(callbackWorkers)
    {
      trackedSockets, jobs := map[], [];
      callbackWorkers := new Pools.ThreadPool(nbWorkers);
    }

    method TrackSocket(fd: Fd, rd: Option<Callback>, wr: Option<Callback>)
      modifies this
      ensures Now() == Apply(old(Now()), Track(fd, rd, wr))
    {
      var info := Entry(trackedSockets, fd);
      trackedSockets := trackedSockets[fd := info.(rdCallback := rd, wrCallback := wr, markedForUntrack := false)];
    }

    method SetRdCallback(fd: Fd, callback: Option<Callback>)
      modifies this
      ensures Now() == Apply(old(Now()), SetCallback(fd, Read, callback))
    {
      trackedSockets := trackedSockets[fd := Entry(trackedSockets, fd).(rdCallback := callback)];
    }

    method SetWrCallback(fd: Fd, callback: Option<Callback>)
      modifies this
      ensures Now() == Apply(old(Now()), SetCallback(fd, Write, callback))
    {
      trackedSockets := trackedSockets[fd := Entry(trackedSockets, fd).(wrCallback := callback)];
    }

    method UntrackSocket(fd: Fd)
      modifies this
      ensures Now() == Apply(old(Now()), Untrack(fd))
    {
      if fd in trackedSockets {
        trackedSockets := trackedSockets[fd := trackedSockets[fd].(markedForUntrack := true)];
      }
    }

    method ProcessRdEvent(fd: Fd)
      requires Enabled(Now(), Ready(fd, Read)) && |jobs| == callbackWorkers.added
      modifies this, callbackWorkers
      ensures Now() == Apply(old(Now()), Ready(fd, Read)) && |jobs| == callbackWorkers.added
    {
      var socket := trackedSockets[fd];
      trackedSockets := trackedSockets[fd := socket.(isExecutingRd := true)];
      callbackWorkers.Enqueue(|jobs|);
      jobs := jobs + [Job(fd, Read, socket.rdCallback.value)];
    }

    method ProcessWrEvent(fd: Fd)
      requires Enabled(Now(), Ready(fd, Write)) && |jobs| == callbackWorkers.added
      modifies this, callbackWorkers
      ensures Now() == Apply(old(Now()), Ready(fd, Write)) && |jobs| == callbackWorkers.added
    {
      var socket := trackedSockets[fd];
      trackedSockets := trackedSockets[fd := socket.(isExecutingWr := true)];
      callbackWorkers.Enqueue(|jobs|);
      jobs := jobs + [Job(fd, Write, socket.wrCallback.value)];
    }

    // Takes up what the poll saw; afterwards a marked socket with nothing in flight is forgotten.
    method ProcessEvents(polled: seq<Fd>, readable: set<Fd>, writable: set<Fd>)
      requires |jobs| == callbackWorkers.added
      modifies this, callbackWorkers
      ensures Now() == VisitAll(old(Now()), polled, readable, writable)
      ensures |jobs| == callbackWorkers.added
    {
      ghost var before := Now();
      var i := 0;
      while i < |polled|
        invariant 0 <= i <= |polled| && |jobs| == callbackWorkers.added
        invariant VisitAll(before, polled, readable, writable) == VisitAll(Now(), polled[i..], readable, writable)
      {
        var fd := polled[i];
        assert polled[i..][1..] == polled[i + 1..];
        ProcessSocket(fd, readable, writable);
        i := i + 1;
      }
    }

    method ProcessSocket(fd: Fd, readable: set<Fd>, writable: set<Fd>)
      requires |jobs| == callbackWorkers.added
      modifies this, callbackWorkers
      ensures Now() == Visit(old(Now()), fd, readable, writable)
      ensures |jobs| == callbackWorkers.added
    {
      if fd in trackedSockets {
        if fd in readable && trackedSockets[fd].rdCallback.Some? && !trackedSockets[fd].isExecutingRd {
          ProcessRdEvent(fd);
        }
        if fd in writable && trackedSockets[fd].wrCallback.Some? && !trackedSockets[fd].isExecutingWr {
          ProcessWrEvent(fd);
        }
        Forget(fd);
      }
    }

    // Drops a marked entry unless a callback of its socket executes.
    method Forget(fd: Fd)
      modifies this
      ensures Now() == Apply(old(Now()), Wake(fd)) && jobs == old(jobs)
    {
      if Removable(trackedSockets, fd) {
        trackedSockets := trackedSockets - {fd};
      }
    }

    // The end of the callback worker w runs.
    method CallbackDone(w: nat)
      requires Enabled(Now(), Finish(w))
      modifies this, callbackWorkers
      ensures Now() == Apply(old(Now()), Finish(w))
    {
      var job := jobs[callbackWorkers.workers[w].task];
      callbackWorkers.TaskDone(w);
      if job.fd in trackedSockets {
        trackedSockets := trackedSockets[job.fd := WithExecuting(trackedSockets[job.fd], job.side, false)];
        Forget(job.fd);
      }
    }
  }
}
