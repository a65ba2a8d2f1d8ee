/** When the assertion of Fiber::resume fails: two workers that hold one fiber. */
module FiberRuns {
  import opened Ascii
  import opened TaskQueue
  import opened SchedulerRuns

  // ---------------------------------------------------------------- the exact condition

  // A worker has the fiber and has not resumed it.
  predicate Holds(s: State, u: nat, f: nat) {
    u < |s.workers| && s.workers[u].pc.Taken? && s.workers[u].pc.task.work == Fiber(f)
  }

  predicate Runs(s: State, u: nat, f: nat) {
    u < |s.workers| && s.workers[u].pc.Running? && s.workers[u].pc.task.work == Fiber(f)
  }

  // A worker that still looks at the queue, for a task that it may take.
  predicate MayTake(s: State, v: nat, thread: int) {
    v < |s.workers| && !Gone(s.workers[v]) && (thread == ANY || thread == v)
  }

  // An entry of the fiber in the queue, and a worker that may take it.
  predicate QueuedFor(s: State, i: nat, v: nat, f: nat) {
    i < |s.core.tasks| && s.core.tasks[i].work == Fiber(f) && MayTake(s, v, s.core.tasks[i].thread)
  }

  // One worker has the fiber and another has it too, or may still get it; or two may get it from two entries.
  ghost predicate BothHave(s: State, f: nat) {
    exists u, v :: u != v && Holds(s, u, f) && (Holds(s, v, f) || Runs(s, v, f))
  }

  ghost predicate AnotherGets(s: State, f: nat) {
    exists u, v, i :: u != v && Holds(s, u, f) && QueuedFor(s, i, v, f)
  }

  ghost predicate BothGet(s: State, f: nat) {
    exists u, v, i, j :: u != v && i != j && QueuedFor(s, i, u, f) && QueuedFor(s, j, v, f)
  }

  ghost predicate Clash(s: State, f: nat) { BothHave(s, f) || AnotherGets(s, f) || BothGet(s, f) }

  // What scheduling the fiber for `thread` adds: some worker may take it while another has it or may take it.
  ghost predicate Adds(s: State, f: nat, thread: int) {
    exists u, v :: u != v && MayTake(s, v, thread) && (Holds(s, u, f) || exists i :: QueuedFor(s, i, u, f))
  }

  // ---------------------------------------------------------------- without a clash

  // No step brings a clash about but the scheduling of the fiber, and none fails on a fiber that has none.
  ghost predicate Schedules(e: Event, f: nat) { !Quietly(e) && e.work == Fiber(f) }

  lemma {:induction false} ScheduleClashIff(s: State, f: nat, thread: int)
    requires !Clash(s, f)
    ensures Clash(Scheduled(s, Fiber(f), thread), f) <==> Adds(s, f, thread)
  {
    if Clash(Scheduled(s, Fiber(f), thread), f) { NewClashAdds(s, f, thread); }
    if Adds(s, f, thread) { AddsClash(s, f, thread); }
  }

  // An entry more at the end of the queue, and all else as it was.
  lemma {:induction false} OneMoreQueued(s: State, s': State, f: nat, thread: int)
    requires s' == Scheduled(s, Fiber(f), thread)
    ensures forall i, v :: QueuedFor(s', i, v, f) <==>
              QueuedFor(s, i, v, f) || (i == |s.core.tasks| && MayTake(s, v, thread))
    ensures forall u :: (Holds(s', u, f) <==> Holds(s, u, f)) && (Runs(s', u, f) <==> Runs(s, u, f))
  {
  }

  lemma {:induction false} NewClashAdds(s: State, f: nat, thread: int)
    requires !Clash(s, f) && Clash(Scheduled(s, Fiber(f), thread), f)
    ensures Adds(s, f, thread)
  {
    var s', n := Scheduled(s, Fiber(f), thread), |s.core.tasks|;
    OneMoreQueued(s, s', f, thread);
    if AnotherGets(s', f) {
      var u, v, i :| u != v && Holds(s', u, f) && QueuedFor(s', i, v, f);
      assert Holds(s, u, f) && MayTake(s, v, thread);
    } else if BothGet(s', f) {
      var u, v, i, j :| u != v && i != j && QueuedFor(s', i, u, f) && QueuedFor(s', j, v, f);
      if i == n {
        assert QueuedFor(s, j, v, f) && MayTake(s, u, thread);
        assert Holds(s, v, f) || exists m :: QueuedFor(s, m, v, f);
      } else {
        assert QueuedFor(s, i, u, f) && MayTake(s, v, thread);
        assert Holds(s, u, f) || exists m :: QueuedFor(s, m, u, f);
      }
    }
  }

  lemma {:induction false} AddsClash(s: State, f: nat, thread: int)
    requires Adds(s, f, thread)
    ensures Clash(Scheduled(s, Fiber(f), thread), f)
  {
    var s', n: nat := Scheduled(s, Fiber(f), thread), |s.core.tasks|;
    OneMoreQueued(s, s', f, thread);
    var u, v :| u != v && MayTake(s, v, thread) && (Holds(s, u, f) || exists i :: QueuedFor(s, i, u, f));
    assert QueuedFor(s', n, v, f);
    if Holds(s, u, f) {
      assert Holds(s', u, f);
      assert AnotherGets(s', f);
    } else {
      var i :| QueuedFor(s, i, u, f);
      assert i != n && QueuedFor(s', i, u, f);
      assert BothGet(s', f);
    }
  }

  lemma {:induction false} OtherSchedule(s: State, f: nat, work: Work, thread: int)
    requires !Clash(s, f) && work != Fiber(f)
    ensures !Clash(Scheduled(s, work, thread), f)
  {
    var s' := Scheduled(s, work, thread);
    assert forall i, v :: QueuedFor(s', i, v, f) <==> QueuedFor(s, i, v, f);
    assert forall u :: (Holds(s', u, f) <==> Holds(s, u, f)) && (Runs(s', u, f) <==> Runs(s, u, f));
  }

  lemma {:induction false} SameClash(s: State, s': State, f: nat)
    requires s'.workers == s.workers && s'.core.tasks == s.core.tasks
    ensures Clash(s', f) <==> Clash(s, f)
  {
    assert forall i, v :: QueuedFor(s', i, v, f) <==> QueuedFor(s, i, v, f);
    assert forall u :: (Holds(s', u, f) <==> Holds(s, u, f)) && (Runs(s', u, f) <==> Runs(s, u, f));
  }

  // A worker that moves on without taking anything, and is not gone where it was gone before.
  lemma {:induction false} MoveClashes(s: State, u: nat, w: Worker, f: nat)
    requires !Clash(s, f) && u < |s.workers| && !w.pc.Taken? && (Gone(s.workers[u]) ==> Gone(w))
    requires w.pc.Running? ==> s.workers[u].pc == Taken(w.pc.task)
    ensures !Clash(s.(workers := s.workers[u := w]), f)
  {
    var s' := s.(workers := s.workers[u := w]);
    assert forall i, v :: QueuedFor(s', i, v, f) ==> QueuedFor(s, i, v, f);
    assert forall v :: Holds(s', v, f) ==> Holds(s, v, f) && v != u;
    assert forall v :: Runs(s', v, f) ==> Runs(s, v, f) || (v == u && Holds(s, u, f));
  }

  // A worker that takes the task at `k`.
  lemma {:induction false} TakeClashes(s: State, u: nat, k: nat, f: nat)
    requires !Clash(s, f) && At(s, u, Top) && First(s.core.tasks, u, RunningFibers(s.workers)) == Some(k)
    ensures !Clash(Scanned(s, u), f)
  {
    var s', t := Scanned(s, u), s.core.tasks[k];
    forall i: nat, v | QueuedFor(s', i, v, f) ensures QueuedFor(s, if i < k then i else i + 1, v, f) {}
    forall v | Holds(s', v, f) ensures Holds(s, v, f) || (v == u && t.work == Fiber(f) && QueuedFor(s, k, u, f)) {}
    forall v | Runs(s', v, f) ensures Runs(s, v, f) && t.work != Fiber(f) {
      assert f in RunningFibers(s.workers);
    }
  }

  lemma {:induction false} StepKeepsApart(s: State, e: Event, f: nat)
    requires !Clash(s, f) && Enabled(s, e) && (Schedules(e, f) ==> !Adds(s, f, e.thread))
    ensures !Clash(Next(s, e), f)
    ensures Next(s, e).aborted ==> e.Resume? && s.workers[e.u].pc.task.work.Fiber? && !Holds(s, e.u, f)
  {
    match e {
      case Resume(u) =>
        if Refused(s, u) {
          RefusedClashes(s, u);
          SameClash(s, Next(s, e), f);
        } else {
          MoveClashes(s, u, Worker(Running(s.workers[u].pc.task), s.workers[u].idleEnded), f);
        }
      case Scan(u) =>
        match First(s.core.tasks, u, RunningFibers(s.workers)) {
          case None => MoveClashes(s, u, Worker(NoTask, s.workers[u].idleEnded), f);
          case Some(k) => TakeClashes(s, u, k, f);
        }
      case Stop => SameClash(s, Next(s, e), f);
      case Outside(work, thread) => ScheduleStep(s, work, thread, f);
      case Add(_, work, thread) => ScheduleStep(s, work, thread, f);
      case Start(u) => MoveClashes(s, u, Worker(Top, s.workers[u].idleEnded), f);
      case Return(u) => MoveClashes(s, u, Worker(Returned, s.workers[u].idleEnded), f);
      case Finish(u) =>
        MoveClashes(s, u, Worker(Top, s.workers[u].idleEnded), f);
        SameClash(Goto(s, u, Top), Next(s, e), f);
      case Rest(u) => MoveClashes(s, u, Worker(Idle, s.workers[u].idleEnded), f);
      case Wake(u, ends) => MoveClashes(s, u, Worker(Top, ends), f);
      case Leave(u) => MoveClashes(s, u, Worker(Exited, s.workers[u].idleEnded), f);
    }
  }

  lemma {:induction false} ScheduleStep(s: State, work: Work, thread: int, f: nat)
    requires !Clash(s, f) && (work == Fiber(f) ==> !Adds(s, f, thread))
    ensures !Clash(Scheduled(s, work, thread), f)
  {
    if work == Fiber(f) { ScheduleClashIff(s, f, thread); } else { OtherSchedule(s, f, work, thread); }
  }

  lemma {:induction false} RefusedClashes(s: State, u: nat)
    requires u < |s.workers| && s.workers[u].pc.Taken? && Refused(s, u)
    ensures BothHave(s, s.workers[u].pc.task.work.id)
  {
    var f := s.workers[u].pc.task.work.id;
    var v: nat :| v < |s.workers| && s.workers[v].pc.Running? && s.workers[v].pc.task.work == Fiber(f);
    assert Holds(s, u, f) && Runs(s, v, f);
  }

  // ---------------------------------------------------------------- with a clash

  // A continuation without any scheduling in which the assertion fails.
  ghost predicate CanAbort(s: State) { exists e :: Drifts(s, e) && e.aborted }

  lemma {:induction false} Fails(a: State, s: State, u: nat)
    requires Alive(a, s) && u < |s.workers| && s.workers[u].pc.Taken? && Refused(s, u)
    ensures CanAbort(a)
  {
    DriftNext(a, s, Resume(u));
  }

  lemma {:induction false} BothFail(a: State, s: State, u: nat, v: nat, f: nat)
    requires Alive(a, s) && u != v && Holds(s, u, f) && (Holds(s, v, f) || Runs(s, v, f))
    ensures CanAbort(a)
  {
    if Refused(s, u) {
      Fails(a, s, u);
    } else {
      assert !Runs(s, v, f) && !Refused(s, v);
      var s1 := Go(a, s, Resume(v));
      assert Runs(s1, v, f) && Holds(s1, u, f);
      Fails(a, s1, u);
    }
  }

  // Whoever runs something returns; nothing else changes.
  lemma {:induction false} AllReturn(a: State, s: State, n: nat) returns (s': State)
    requires Alive(a, s) && n <= |s.workers| && forall u :: 0 <= u < n ==> !s.workers[u].pc.Running?
    ensures Alive(a, s') && NoneRuns(s') && s'.core.tasks == s.core.tasks && |s'.workers| == |s.workers|
    ensures forall u :: 0 <= u < |s.workers| ==> s'.workers[u] == if s.workers[u].pc.Running?
                                                                 then s.workers[u].(pc := Returned) else s.workers[u]
    decreases |s.workers| - n
  {
    if n == |s.workers| { return s; }
    var s1 := s;
    if s.workers[n].pc.Running? { s1 := Go(a, s, Return(n)); }
    s' := AllReturn(a, s1, n + 1);
  }

  // A worker that is not gone gets through what it has and comes to the top of its loop.
  lemma {:induction false} GetsToTop(a: State, s: State, u: nat) returns (s': State)
    requires Alive(a, s) && NoneRuns(s) && u < |s.workers| && !Gone(s.workers[u])
    ensures Alive(a, s') && NoneRuns(s') && AtTop(s, u, s')
  {
    if Busy(s.workers[u]) { s' := GetsThrough(a, s, u); } else { s' := ComesToTop(a, s, u); }
  }

  // And takes the first task that it may, of which there is one.
  lemma {:induction false} GetsATask(a: State, s: State, u: nat, i: nat, f: nat) returns (s': State, k: nat)
    requires Alive(a, s) && NoneRuns(s) && QueuedFor(s, i, u, f)
    ensures Alive(a, s') && NoneRuns(s') && k < |s.core.tasks| && s'.core.tasks == Without(s.core.tasks, k)
    ensures s'.workers == s.workers[u := Worker(Taken(s.core.tasks[k]), s.workers[u].idleEnded)]
    ensures MayTake(s, u, s.core.tasks[k].thread)
  {
    var s1 := GetsToTop(a, s, u);
    s', k := TakesATask(a, s1, u, i);
  }

  lemma {:induction false} TakesATask(a: State, s: State, u: nat, i: nat) returns (s': State, k: nat)
    requires Alive(a, s) && NoneRuns(s) && At(s, u, Top) && i < |s.core.tasks|
    requires s.core.tasks[i].thread == ANY || s.core.tasks[i].thread == u
    ensures Alive(a, s') && NoneRuns(s') && k < |s.core.tasks| && s'.core.tasks == Without(s.core.tasks, k)
    ensures s'.workers == s.workers[u := Worker(Taken(s.core.tasks[k]), s.workers[u].idleEnded)]
    ensures s.core.tasks[k].thread == ANY || s.core.tasks[k].thread == u
  {
    NoFibers(s);
    assert Eligible(s.core.tasks[i], u, {});
    k := First(s.core.tasks, u, {}).value;
    s' := Go(a, s, Scan(u));
  }

  // The place of an entry after another has left the queue.
  function Moved(i: nat, k: nat): nat
    requires i != k
  {
    if i < k then i else i - 1
  }

  lemma {:induction false} StaysQueued(s: State, s': State, u: nat, k: nat, i: nat, v: nat, f: nat)
    requires k < |s.core.tasks| && s'.core.tasks == Without(s.core.tasks, k) && i != k && QueuedFor(s, i, v, f)
    requires u < |s.workers| && s'.workers == s.workers[u := Worker(Taken(s.core.tasks[k]), s.workers[u].idleEnded)]
    ensures Moved(i, k) < |s'.core.tasks| < |s.core.tasks| && s'.core.tasks[Moved(i, k)] == s.core.tasks[i]
    ensures QueuedFor(s', Moved(i, k), v, f) && (s.core.tasks[k].work == Fiber(f) ==> Holds(s', u, f))
  {
  }

  // One has the fiber, the other gets it.
  lemma {:induction false} OtherGets(a: State, s: State, u: nat, v: nat, i: nat, f: nat)
    requires Alive(a, s) && NoneRuns(s) && u != v && Holds(s, u, f) && QueuedFor(s, i, v, f)
    ensures CanAbort(a)
    decreases |s.core.tasks|
  {
    var s', k := GetsATask(a, s, v, i, f);
    assert Holds(s', u, f);
    if s.core.tasks[k].work == Fiber(f) {
      BothFail(a, s', u, v, f);
    } else {
      StaysQueued(s, s', v, k, i, v, f);
      OtherGets(a, s', u, v, Moved(i, k), f);
    }
  }

  // Two get it. If one of the entries is for `u` alone, `v` goes first.
  lemma {:induction false} TwoGet(a: State, s: State, u: nat, v: nat, i: nat, j: nat, f: nat)
    requires Alive(a, s) && NoneRuns(s) && u != v && i != j && QueuedFor(s, i, u, f) && QueuedFor(s, j, v, f)
    requires s.core.tasks[i].thread == ANY ==> s.core.tasks[j].thread == ANY
    ensures CanAbort(a)
    decreases |s.core.tasks|
  {
    var s', k := GetsATask(a, s, v, j, f);
    if s.core.tasks[k].work == Fiber(f) {
      var r := if k == i then j else i;
      assert QueuedFor(s, r, u, f);
      StaysQueued(s, s', v, k, r, u, f);
      OtherGets(a, s', v, u, Moved(r, k), f);
    } else {
      StaysQueued(s, s', v, k, i, u, f);
      StaysQueued(s, s', v, k, j, v, f);
      TwoGet(a, s', u, v, Moved(i, k), Moved(j, k), f);
    }
  }

  lemma {:induction false} ClashAborts(s: State, f: nat)
    requires Inv(s) && !s.aborted && Clash(s, f)
    ensures CanAbort(s)
  {
    DriftSelf(s);
    if BothHave(s, f) {
      var u, v :| u != v && Holds(s, u, f) && (Holds(s, v, f) || Runs(s, v, f));
      BothFail(s, s, u, v, f);
    } else {
      var s1 := AllReturn(s, s, 0);
      ReturnedKeep(s, s1, f);
      if AnotherGets(s, f) {
        var u, v, i :| u != v && Holds(s, u, f) && QueuedFor(s, i, v, f);
        OtherGets(s, s1, u, v, i, f);
      } else {
        var u, v, i, j :| u != v && i != j && QueuedFor(s, i, u, f) && QueuedFor(s, j, v, f);
        EitherFirst(s, s1, u, v, i, j, f);
      }
    }
  }

  lemma {:induction false} ReturnedKeep(s: State, s': State, f: nat)
    requires s'.core.tasks == s.core.tasks && |s'.workers| == |s.workers|
    requires forall u :: 0 <= u < |s.workers| ==> s'.workers[u] == if s.workers[u].pc.Running?
                                                                  then s.workers[u].(pc := Returned) else s.workers[u]
    ensures forall u :: Holds(s, u, f) ==> Holds(s', u, f)
    ensures forall i, v :: QueuedFor(s, i, v, f) ==> QueuedFor(s', i, v, f)
  {
  }

  lemma {:induction false} EitherFirst(a: State, s: State, u: nat, v: nat, i: nat, j: nat, f: nat)
    requires Alive(a, s) && NoneRuns(s) && u != v && i != j && QueuedFor(s, i, u, f) && QueuedFor(s, j, v, f)
    ensures CanAbort(a)
  {
    if s.core.tasks[i].thread == ANY && s.core.tasks[j].thread != ANY {
      TwoGet(a, s, v, u, j, i, f);
    } else {
      TwoGet(a, s, u, v, i, j, f);
    }
  }

  // ---------------------------------------------------------------- both

  lemma {:induction false} RunStaysApart(ss: seq<State>, es: seq<Event>, f: nat, n: nat)
    requires IsRun(ss, es) && n < |ss| && !Clash(ss[0], f)
    requires forall k :: 0 <= k < n && Schedules(es[k], f) ==> !Adds(ss[k], f, es[k].thread)
    ensures !Clash(ss[n], f)
    decreases n
  {
    if n > 0 {
      RunStaysApart(ss, es, f, n - 1);
      assert Enabled(ss[n - 1], es[n - 1]);
      StepKeepsApart(ss[n - 1], es[n - 1], f);
    }
  }

  // A run in which the assertion fails failed on a fiber that clashed before.
  lemma {:induction false} AbortClashes(ss: seq<State>, es: seq<Event>) returns (f: nat)
    requires IsRun(ss, es) && !ss[0].aborted && ss[|es|].aborted
    ensures es != [] && Clash(ss[|es| - 1], f) && es[|es| - 1].Resume? && Holds(ss[|es| - 1], es[|es| - 1].u, f)
  {
    var n := |es| - 1;
    assert Enabled(ss[n], es[n]) && ss[n + 1] == Next(ss[n], es[n]);
    var u := es[n].u;
    f := ss[n].workers[u].pc.task.work.id;
    RefusedClashes(ss[n], u);
  }

  // For every sound state: the assertion can fail without any further scheduling exactly when some fiber clashes.
  lemma {:induction false} CanAbortIff(s: State)
    requires Inv(s) && !s.aborted
    ensures CanAbort(s) <==> exists f :: Clash(s, f)
  {
    if f :| Clash(s, f) {
      ClashAborts(s, f);
    }
    if CanAbort(s) {
      var e :| Drifts(s, e) && e.aborted;
      var ss: seq<State>, es: seq<Event> :|
        IsRun(ss, es) && ss[0] == s && ss[|es|] == e && forall k :: 0 <= k < |es| ==> Quietly(es[k]);
      var f := AbortClashes(ss, es);
      if !Clash(s, f) { RunStaysApart(ss, es, f, |es| - 1); }
    }
  }

  // A run from the start never fails when no fiber is scheduled where that adds a clash.
  lemma {:induction false} NeverAborts(threads: nat, ss: seq<State>, es: seq<Event>)
    requires IsRun(ss, es) && ss[0] == Init(threads)
    requires forall k, f :: 0 <= k < |es| && Schedules(es[k], f) ==> !Adds(ss[k], f, es[k].thread)
    ensures !ss[|es|].aborted
  {
    if ss[|es|].aborted {
      var f := AbortClashes(ss, es);
      RunStaysApart(ss, es, f, |es| - 1);
    }
  }

  // And where it is, that run has a continuation without any scheduling that fails.
  lemma {:induction false} OneTooMany(s: State, e: Event, f: nat)
    requires Inv(s) && Enabled(s, e) && !Clash(s, f) && Schedules(e, f) && Adds(s, f, e.thread)
    ensures CanAbort(Next(s, e))
  {
    StepKeepsInv(s, e);
    ScheduleClashIff(s, f, e.thread);
    ClashAborts(Next(s, e), f);
  }

  // One worker never fails.
  lemma {:induction false} OneWorkerNeverAborts(ss: seq<State>, es: seq<Event>)
    requires IsRun(ss, es) && ss[0] == Init(1)
    ensures !ss[|es|].aborted
  {
    forall k, f | 0 <= k < |es| && Schedules(es[k], f) ensures !Adds(ss[k], f, es[k].thread) {
      SameWorkers(ss, es, k);
    }
    NeverAborts(1, ss, es);
  }

  lemma {:induction false} SameWorkers(ss: seq<State>, es: seq<Event>, n: nat)
    requires IsRun(ss, es) && n < |ss|
    ensures |ss[n].workers| == |ss[0].workers|
    decreases n
  {
    if n > 0 {
      SameWorkers(ss, es, n - 1);
      assert Enabled(ss[n - 1], es[n - 1]);
    }
  }

  // Nor does a fiber that is always scheduled for one and the same worker.
  ghost predicate OnlyFor(s: State, f: nat, thread: nat) {
    && (forall i :: 0 <= i < |s.core.tasks| && s.core.tasks[i].work == Fiber(f) ==> s.core.tasks[i].thread == thread)
    && (forall u :: Holds(s, u, f) ==> u == thread)
  }

  lemma {:induction false} OnlyForKept(s: State, e: Event, f: nat, thread: nat)
    requires OnlyFor(s, f, thread) && Enabled(s, e) && (Schedules(e, f) ==> e.thread == thread)
    ensures OnlyFor(Next(s, e), f, thread) && (Schedules(e, f) ==> !Adds(s, f, thread))
  {
    var s' := Next(s, e);
    forall u: nat | Holds(s', u, f) ensures u == thread {
      if e.Scan? && u == e.u {
        var k := First(s.core.tasks, u, RunningFibers(s.workers)).value;
        assert s'.workers[u].pc == Taken(s.core.tasks[k]);
      } else {
        assert Holds(s, u, f);
      }
    }
  }

  lemma {:induction false} OnlyForHolds(threads: nat, ss: seq<State>, es: seq<Event>, f: nat, thread: nat, n: nat)
    requires IsRun(ss, es) && ss[0] == Init(threads) && n < |ss|
    requires forall k :: 0 <= k < |es| && Schedules(es[k], f) ==> es[k].thread == thread
    ensures OnlyFor(ss[n], f, thread)
    decreases n
  {
    if n > 0 {
      OnlyForHolds(threads, ss, es, f, thread, n - 1);
      assert Enabled(ss[n - 1], es[n - 1]);
      OnlyForKept(ss[n - 1], es[n - 1], f, thread);
    }
  }

  lemma {:induction false} PinnedNeverAborts(threads: nat, ss: seq<State>, es: seq<Event>, f: nat, thread: nat)
    requires IsRun(ss, es) && ss[0] == Init(threads) && ss[|es|].aborted
    requires forall k :: 0 <= k < |es| && Schedules(es[k], f) ==> es[k].thread == thread
    ensures es != [] && es[|es| - 1].Resume? && !Holds(ss[|es| - 1], es[|es| - 1].u, f)
  {
    var g := AbortClashes(ss, es);
    if g == f {
      forall k | 0 <= k < |es| && Schedules(es[k], f) ensures !Adds(ss[k], f, es[k].thread) {
        OnlyForHolds(threads, ss, es, f, thread, k);
        assert Enabled(ss[k], es[k]);
        OnlyForKept(ss[k], es[k], f, thread);
      }
      RunStaysApart(ss, es, f, |es| - 1);
    }
  }

  // Nobody but the worker that runs it, if any, has the fiber.
  ghost predicate Free(s: State, f: nat) {
    (forall i, v :: !QueuedFor(s, i, v, f)) && (forall u :: !Holds(s, u, f))
  }

  // Nor a run that schedules fibers only while they are free: one that yields may have scheduled itself, once.
  lemma {:induction false} PoliteNeverAborts(threads: nat, ss: seq<State>, es: seq<Event>)
    requires IsRun(ss, es) && ss[0] == Init(threads)
    requires forall k, f :: 0 <= k < |es| && Schedules(es[k], f) ==> Free(ss[k], f)
    ensures !ss[|es|].aborted
  {
    NeverAborts(threads, ss, es);
  }

  // A fiber that is scheduled twice can be taken by two workers, and then it fails.
  lemma {:induction false} TwiceScheduledAborts() returns (s: State)
    ensures Reaches(Init(2), s) && s.aborted
  {
    var t0, t1 := Task(0, Fiber(7), ANY), Task(1, Fiber(7), ANY);
    s := BothHold(t0, t1);
    s := Do(Init(2), s, Resume(0));
    assert s.workers == [Worker(Running(t0), false), Worker(Taken(t1), false)];
    assert s.workers[0].pc.Running? && 7 in RunningFibers(s.workers);
    s := Do(Init(2), s, Resume(1));
  }

  lemma {:induction false} BothHold(t0: Task, t1: Task) returns (s: State)
    requires t0 == Task(0, Fiber(7), ANY) && t1 == Task(1, Fiber(7), ANY)
    ensures Reaches(Init(2), s) && s.workers == [Worker(Taken(t0), false), Worker(Taken(t1), false)] && !s.aborted
  {
    s := BothQueued(t0, t1);
    FirstIs(s.core.tasks, 0, RunningFibers(s.workers), 0);
    s := Do(Init(2), s, Scan(0));
    assert s.core.tasks == [t1] && s.workers == [Worker(Taken(t0), false), Worker(Top, false)] && !s.aborted;
    FirstIs(s.core.tasks, 1, RunningFibers(s.workers), 0);
    s := Do(Init(2), s, Scan(1));
  }

  lemma {:induction false} BothQueued(t0: Task, t1: Task) returns (s: State)
    requires t0 == Task(0, Fiber(7), ANY) && t1 == Task(1, Fiber(7), ANY)
    ensures Reaches(Init(2), s)
    ensures s == State(Core([t0, t1], 0, false), [Worker(Top, false), Worker(Top, false)], [t0, t1], [], false)
  {
    s := Begin(2);
    s := Do(Init(2), s, Start(0));
    s := Do(Init(2), s, Start(1));
    s := Do(Init(2), s, Outside(Fiber(7), ANY));
    s := Do(Init(2), s, Outside(Fiber(7), ANY));
  }
}
