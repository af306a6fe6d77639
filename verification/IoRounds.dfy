/**
 What one round of the poll does, socket by socket and in terms of the entries
 before it: which callbacks are handed to the workers and which entries go.
 */
module IoRounds {
  import opened IoServices
  import opened Lists
  import opened Wrappers

  // What a polled socket's entry calls for on each side.
  function RdJobs(m: map<Fd, Tracked>, fd: Fd, readable: set<Fd>): seq<Job> {
    if fd in m && fd in readable && m[fd].rdCallback.Some? && !m[fd].isExecutingRd
    then [Job(fd, Read, m[fd].rdCallback.value)] else []
  }

  function WrJobs(m: map<Fd, Tracked>, fd: Fd, writable: set<Fd>): seq<Job> {
    if fd in m && fd in writable && m[fd].wrCallback.Some? && !m[fd].isExecutingWr
    then [Job(fd, Write, m[fd].wrCallback.value)] else []
  }

  // All of that, in the order the sockets are polled.
  function Jobs(m: map<Fd, Tracked>, polled: seq<Fd>, readable: set<Fd>, writable: set<Fd>): seq<Job> {
    if polled == [] then []
    else RdJobs(m, polled[0], readable) + WrJobs(m, polled[0], writable) + Jobs(m, polled[1..], readable, writable)
  }

  // The entry of a visited socket afterwards, or none.
  function EntryAfter(m: map<Fd, Tracked>, fd: Fd, readable: set<Fd>, writable: set<Fd>): Option<Tracked> {
    if fd !in m then None
    else
      var rd := m[fd].isExecutingRd || RdJobs(m, fd, readable) != [];
      var wr := m[fd].isExecutingWr || WrJobs(m, fd, writable) != [];
      if m[fd].markedForUntrack && !rd && !wr then None
      else Some(m[fd].(isExecutingRd := rd, isExecutingWr := wr))
  }

  function EntryOf(m: map<Fd, Tracked>, fd: Fd): Option<Tracked> {
    if fd in m then Some(m[fd]) else None
  }

  lemma ReportSays(s: Service, reported: bool, fd: Fd, side: Side)
    ensures var q := ReportIf(s, reported, fd, side);
            var taken := reported && fd in s.tracked
                         && (if side.Read? then s.tracked[fd].rdCallback else s.tracked[fd].wrCallback).Some?
                         && !(if side.Read? then s.tracked[fd].isExecutingRd else s.tracked[fd].isExecutingWr);
            if taken then
              && q.jobs == s.jobs
                 + [Job(fd, side, (if side.Read? then s.tracked[fd].rdCallback else s.tracked[fd].wrCallback).value)]
              && q.tracked == s.tracked[fd := if side.Read? then s.tracked[fd].(isExecutingRd := true)
                                              else s.tracked[fd].(isExecutingWr := true)]
              && q.pool == s.pool.(tasks := s.pool.tasks + [s.pool.added], added := s.pool.added + 1)
            else q == s
  {
  }

  lemma VisitSays(s: Service, fd: Fd, readable: set<Fd>, writable: set<Fd>)
    ensures var q := Visit(s, fd, readable, writable);
            && q.jobs == s.jobs + (RdJobs(s.tracked, fd, readable) + WrJobs(s.tracked, fd, writable))
            && EntryOf(q.tracked, fd) == EntryAfter(s.tracked, fd, readable, writable)
            && (forall f :: f != fd ==> EntryOf(q.tracked, f) == EntryOf(s.tracked, f))
  {
    var a := ReportIf(s, fd in readable, fd, Read);
    ReportSays(s, fd in readable, fd, Read);
    ReportSays(a, fd in writable, fd, Write);
    hide ReportIf;
    Assoc(s.jobs, RdJobs(s.tracked, fd, readable), WrJobs(s.tracked, fd, writable));
  }

  lemma VisitPool(s: Service, fd: Fd, readable: set<Fd>, writable: set<Fd>)
    ensures var q := Visit(s, fd, readable, writable);
            && q.pool.workers == s.pool.workers && q.pool.started == s.pool.started
            && q.pool.finished == s.pool.finished && s.pool.tasks <= q.pool.tasks
            && |q.pool.tasks| - |s.pool.tasks| == |q.jobs| - |s.jobs|
  {
    var a := ReportIf(s, fd in readable, fd, Read);
    ReportSays(s, fd in readable, fd, Read);
    ReportSays(a, fd in writable, fd, Write);
    hide ReportIf;
  }

  predicate Distinct(fds: seq<Fd>) {
    forall i, j :: 0 <= i < j < |fds| ==> fds[i] != fds[j]
  }

  lemma TailDistinct(fds: seq<Fd>)
    requires fds != [] && Distinct(fds)
    ensures Distinct(fds[1..]) && fds[0] !in fds[1..]
  {
    forall i, j | 0 <= i < j < |fds[1..]| ensures fds[1..][i] != fds[1..][j] {
      assert fds[i + 1] != fds[j + 1];
    }
  }

  lemma {:induction false} SameEntriesSameJobs(m: map<Fd, Tracked>, n: map<Fd, Tracked>, polled: seq<Fd>,
                                               readable: set<Fd>, writable: set<Fd>)
    requires forall f :: f in polled ==> EntryOf(m, f) == EntryOf(n, f)
    ensures Jobs(m, polled, readable, writable) == Jobs(n, polled, readable, writable)
  {
    if polled != [] {
      assert polled == [polled[0]] + polled[1..];
      assert EntryOf(m, polled[0]) == EntryOf(n, polled[0]);
      SameEntriesSameJobs(m, n, polled[1..], readable, writable);
    }
  }

  /**
   A round over distinct sockets hands to the workers exactly what the entries before
   the round call for: the read callback of each polled socket that is readable and
   not executing one, the write callback of each that is writable and not executing
   one, in the order of polling.
   */
  lemma {:induction false} RoundHandsOver(s: Service, polled: seq<Fd>, readable: set<Fd>, writable: set<Fd>)
    requires Distinct(polled)
    ensures VisitAll(s, polled, readable, writable).jobs == s.jobs + Jobs(s.tracked, polled, readable, writable)
    decreases |polled|
  {
    if polled == [] {
      assert s.jobs + [] == s.jobs;
    } else {
      var fd, rest := polled[0], polled[1..];
      var q := Visit(s, fd, readable, writable);
      TailDistinct(polled);
      VisitSays(s, fd, readable, writable);
      hide Visit, RdJobs, WrJobs, EntryOf, EntryAfter, Distinct;
      RoundHandsOver(q, rest, readable, writable);
      SameEntriesSameJobs(q.tracked, s.tracked, rest, readable, writable);
      Assoc(s.jobs, RdJobs(s.tracked, fd, readable) + WrJobs(s.tracked, fd, writable),
            Jobs(s.tracked, rest, readable, writable));
    }
  }

  /** Each callback called for is handed over once, and nothing else is. */
  lemma {:induction false} HandedOverIff(m: map<Fd, Tracked>, polled: seq<Fd>, readable: set<Fd>, writable: set<Fd>,
                                         fd: Fd, callback: Callback)
    requires Distinct(polled)
    ensures multiset(Jobs(m, polled, readable, writable))[Job(fd, Read, callback)] ==
              if fd in polled && fd in m && fd in readable && m[fd].rdCallback == Some(callback) && !m[fd].isExecutingRd
              then 1 else 0
    ensures multiset(Jobs(m, polled, readable, writable))[Job(fd, Write, callback)] ==
              if fd in polled && fd in m && fd in writable && m[fd].wrCallback == Some(callback) && !m[fd].isExecutingWr
              then 1 else 0
  {
    if polled != [] {
      TailDistinct(polled);
      assert polled == [polled[0]] + polled[1..];
      HandedOverIff(m, polled[1..], readable, writable, fd, callback);
      CalledFor(m, polled[0], readable, writable, fd, callback);
      hide Distinct, RdJobs, WrJobs;
      BagOfThree(RdJobs(m, polled[0], readable), WrJobs(m, polled[0], writable),
                 Jobs(m, polled[1..], readable, writable));
    }
  }

  lemma CalledFor(m: map<Fd, Tracked>, f: Fd, readable: set<Fd>, writable: set<Fd>, fd: Fd, callback: Callback)
    ensures multiset(RdJobs(m, f, readable))[Job(fd, Read, callback)] ==
              if f == fd && fd in m && fd in readable && m[fd].rdCallback == Some(callback) && !m[fd].isExecutingRd
              then 1 else 0
    ensures multiset(WrJobs(m, f, writable))[Job(fd, Write, callback)] ==
              if f == fd && fd in m && fd in writable && m[fd].wrCallback == Some(callback) && !m[fd].isExecutingWr
              then 1 else 0
    ensures multiset(RdJobs(m, f, readable))[Job(fd, Write, callback)] == 0
    ensures multiset(WrJobs(m, f, writable))[Job(fd, Read, callback)] == 0
  {
  }

  lemma BagOfThree(a: seq<Job>, b: seq<Job>, c: seq<Job>)
    ensures multiset(a + b + c) == multiset(a) + multiset(b) + multiset(c)
  {
  }

  /** After a round every polled socket has the entry its own visit leaves, and every other its old one. */
  lemma {:induction false} RoundLeaves(s: Service, polled: seq<Fd>, readable: set<Fd>, writable: set<Fd>, fd: Fd)
    requires Distinct(polled)
    ensures EntryOf(VisitAll(s, polled, readable, writable).tracked, fd) ==
              if fd in polled then EntryAfter(s.tracked, fd, readable, writable) else EntryOf(s.tracked, fd)
    decreases |polled|
  {
    if polled != [] {
      var q := Visit(s, polled[0], readable, writable);
      TailDistinct(polled);
      assert polled == [polled[0]] + polled[1..];
      VisitSays(s, polled[0], readable, writable);
      hide Visit, Distinct;
      RoundLeaves(q, polled[1..], readable, writable, fd);
      SameEntrySameAfter(q.tracked, s.tracked, fd, readable, writable);
    }
  }

  lemma SameEntrySameAfter(m: map<Fd, Tracked>, n: map<Fd, Tracked>, fd: Fd, readable: set<Fd>, writable: set<Fd>)
    ensures EntryOf(m, fd) == EntryOf(n, fd) ==>
              EntryAfter(m, fd, readable, writable) == EntryAfter(n, fd, readable, writable)
  {
  }

  /** A round queues one task for each callback handed over and disturbs no worker. */
  lemma {:induction false} RoundQueues(s: Service, polled: seq<Fd>, readable: set<Fd>, writable: set<Fd>)
    ensures var q := VisitAll(s, polled, readable, writable);
            && q.pool.workers == s.pool.workers && q.pool.started == s.pool.started
            && q.pool.finished == s.pool.finished && s.pool.tasks <= q.pool.tasks
            && |q.pool.tasks| - |s.pool.tasks| == |q.jobs| - |s.jobs|
    decreases |polled|
  {
    if polled != [] {
      VisitPool(s, polled[0], readable, writable);
      hide Visit;
      RoundQueues(Visit(s, polled[0], readable, writable), polled[1..], readable, writable);
    }
  }

  // --- The other operations on entries ---------------------------------------------

  /** The return of a callback forgets its socket exactly if it was marked and nothing else of it is in flight. */
  lemma ReturnForgetsIff(nbWorkers: nat, es: seq<Event>, s: Service, w: nat)
    requires Reachable(nbWorkers, es, s) && Enabled(s, Finish(w))
    ensures var fd := s.jobs[s.pool.workers[w].task].fd;
            && fd in s.tracked
            && (fd !in Apply(s, Finish(w)).tracked <==>
                  s.tracked[fd].markedForUntrack && Quiet(Apply(s, Finish(w)), fd))
  {
    EveryRun(nbWorkers, es, s);
    StepKeeps(s, Finish(w));
    var t := s.pool.workers[w].task;
    Pools.LiveAfter(s.pool, Pools.Finish(w));
    QuietIffUnflagged(Apply(s, Finish(w)), s.jobs[t].fd);
    hide Pools.Inv, Pools.Live, Quiet;
  }

  /**
   Setting a callback leaves the other side, what executes and the mark of its socket
   alone, and every other socket.
   */
  lemma SetTouchesOneSide(s: Service, fd: Fd, side: Side, callback: Option<Callback>, f: Fd)
    ensures var q := Apply(s, SetCallback(fd, side, callback));
            var was := if fd in s.tracked then s.tracked[fd] else Tracked(None, false, None, false, false);
            && fd in q.tracked
            && q.tracked[fd] == (if side.Read? then Tracked(callback, was.isExecutingRd, was.wrCallback,
                                                            was.isExecutingWr, was.markedForUntrack)
                                 else Tracked(was.rdCallback, was.isExecutingRd, callback,
                                              was.isExecutingWr, was.markedForUntrack))
            && (f != fd ==> EntryOf(q.tracked, f) == EntryOf(s.tracked, f))
            && q.jobs == s.jobs && q.pool == s.pool
  {
  }

  /** A service starts with nothing tracked and as many idle workers as it was given. */
  lemma StartsIdle(nbWorkers: nat)
    ensures var s := Initial(nbWorkers);
            && s.tracked == map[] && s.jobs == [] && s.pool.tasks == [] && |s.pool.workers| == nbWorkers
            && forall w :: 0 <= w < nbWorkers ==> s.pool.workers[w] == Pools.Idle
  {
    assert [] + Pools.Idles(nbWorkers) == Pools.Idles(nbWorkers);
  }
}
