/** The task queue of the scheduler: what its critical sections do. */
module TaskQueue {
  import opened Ascii

  // What a task runs: a fiber, a callback, or, from an empty pointer, nothing.
  datatype Work = Fiber(id: nat) | Callback | Nothing

  const ANY: int := -1

  // `id` tells tasks apart: it is their number in the order of scheduling.
  datatype Task = Task(id: nat, work: Work, thread: int)

  // The fields under the mutex, and the counter of threads between taking and finishing a task.
  datatype Core = Core(tasks: seq<Task>, active: int, stopping: bool)

  // A task that `thread` may take while the fibers `running` run.
  predicate Eligible(t: Task, thread: int, running: set<nat>) {
    (t.thread == ANY || t.thread == thread) && !(t.work.Fiber? && t.work.id in running)
  }

  // The first of them.
  function First(tasks: seq<Task>, thread: int, running: set<nat>): (k: Option<nat>)
    ensures k.Some? ==> k.value < |tasks| && Eligible(tasks[k.value], thread, running)
    ensures forall i :: 0 <= i < (if k.Some? then k.value else |tasks|) ==> !Eligible(tasks[i], thread, running)
  {
    if tasks == [] then None
    else if Eligible(tasks[0], thread, running) then Some(0)
    else match First(tasks[1..], thread, running) case Some(k) => Some(k + 1) case None => None
  }

  function Without(tasks: seq<Task>, k: nat): seq<Task>
    requires k < |tasks|
  {
    tasks[..k] + tasks[k + 1..]
  }

  function Take(c: Core, thread: int, running: set<nat>): Core {
    match First(c.tasks, thread, running)
    case Some(k) => c.(tasks := Without(c.tasks, k), active := c.active + 1)
    case None => c
  }

  function Push(c: Core, t: Task): Core {
    if t.work.Nothing? then c else c.(tasks := c.tasks + [t])
  }

  predicate IsStopping(c: Core) { c.stopping && c.tasks == [] && c.active == 0 }

  class Scheduler {
    var tasks: seq<Task>
    var active: int
    var stopping: bool

    constructor ()
      ensures View() == Core([], 0, false)
    {
      tasks, active, stopping := [], 0, false;
    }

    function View(): Core
      reads this
    {
      Core(tasks, active, stopping)
    }

    // The critical section of run: the first task in the queue that this thread may run leaves it. The flag to wake
    // others starts out true and is never cleared.
    method TakeTask(thread: int, running: set<nat>) returns (task: Option<Task>, tickleMe: bool)
      requires forall i :: 0 <= i < |tasks| ==> !tasks[i].work.Nothing?
      modifies this`tasks, this`active
      ensures View() == Take(old(View()), thread, running) && tickleMe
      ensures task == match First(old(tasks), thread, running) case Some(k) => Some(old(tasks)[k]) case None => None
    {
      task, tickleMe := None, true;
      var it := 0;
      while it < |tasks|
        invariant 0 <= it <= |tasks| && tasks == old(tasks) && active == old(active) && tickleMe && task == None
        invariant forall i :: 0 <= i < it ==> !Eligible(tasks[i], thread, running)
      {
        if tasks[it].thread != ANY && tasks[it].thread != thread {
          it, tickleMe := it + 1, true;
          continue;
        }
        assert !tasks[it].work.Nothing?;  // SYLAR_ASSERT(it->fiber || it->cb)
        if tasks[it].work.Fiber? && tasks[it].work.id in running {
          it := it + 1;
          continue;
        }
        FirstIs(tasks, thread, running, it);
        task := Some(tasks[it]);
        tasks := Without(tasks, it);
        active := active + 1;
        break;
      }
      tickleMe := tickleMe || it < |tasks|;
    }

    // scheduleNoLock: whether a sleeper must be woken is whether the queue was empty.
    method ScheduleNoLock(t: Task) returns (needTickle: bool)
      modifies this`tasks
      ensures View() == Push(old(View()), t) && needTickle == (old(tasks) == [])
    {
      needTickle := tasks == [];
      if !t.work.Nothing? { tasks := tasks + [t]; }
    }
  }

  lemma {:induction false} FirstIs(tasks: seq<Task>, thread: int, running: set<nat>, k: nat)
    requires k < |tasks| && Eligible(tasks[k], thread, running)
    requires forall i :: 0 <= i < k ==> !Eligible(tasks[i], thread, running)
    ensures First(tasks, thread, running) == Some(k)
  {
    assert First(tasks, thread, running).Some?;
  }
}

/** Every interleaving of the worker threads. */
module SchedulerRuns {
  import opened Ascii
  import opened Sequences
  import opened TaskQueue

  // Where a worker is in run. Taken: it has a task and has not resumed it. Returned: the task came back, the counter is
  // still up. NoTask: it found nothing to do. Idle: inside its idle fiber.
  datatype Pc = NotStarted | Top | Taken(task: Task) | Running(task: Task) | Returned | NoTask | Idle | Exited
  datatype Worker = Worker(pc: Pc, idleEnded: bool)
  datatype Taking = Taking(task: Task, taker: int)

  // `added` and `taken` record the tasks ever put into and taken out of the queue, in order. `aborted` is set when an
  // assertion of the source fails; nothing happens after that.
  datatype State = State(core: Core, workers: seq<Worker>, added: seq<Task>, taken: seq<Taking>, aborted: bool)

  datatype Event =
    | Stop                                        // stop sets its flag
    | Outside(work: Work, thread: int)            // another thread schedules; only before stop
    | Start(u: nat)                               // a worker enters run
    | Scan(u: nat)                                // it looks for a task
    | Resume(u: nat)                              // it resumes the task; that aborts when the fiber runs elsewhere
    | Add(u: nat, work: Work, thread: int)        // its task, or its idle fiber, schedules
    | Return(u: nat)                              // its task ends or yields
    | Finish(u: nat)                              // it counts itself inactive
    | Rest(u: nat)                                // it resumes its idle fiber
    | Wake(u: nat, ends: bool)                    // which yields, or ends because stopping() holds
    | Leave(u: nat)                               // it leaves run

  function Init(threads: nat): State {
    State(Core([], 0, false), seq(threads, _ => Worker(NotStarted, false)), [], [], false)
  }

  // The fibers in state RUNNING.
  function RunningFibers(ws: seq<Worker>): (r: set<nat>)
    ensures forall f :: f in r ==> exists u :: 0 <= u < |ws| && ws[u].pc.Running?
  {
    set u | 0 <= u < |ws| && ws[u].pc.Running? && ws[u].pc.task.work.Fiber? :: ws[u].pc.task.work.id
  }

  function Goto(s: State, u: nat, pc: Pc): State
    requires u < |s.workers|
  {
    s.(workers := s.workers[u := s.workers[u].(pc := pc)])
  }

  function Scheduled(s: State, work: Work, thread: int): State {
    var t := Task(|s.added|, work, thread);
    if work.Nothing? then s else s.(core := Push(s.core, t), added := s.added + [t])
  }

  function Scanned(s: State, u: nat): State
    requires u < |s.workers|
  {
    var running := RunningFibers(s.workers);
    match First(s.core.tasks, u, running)
    case Some(k) =>
      Goto(s, u, Taken(s.core.tasks[k])).(core := Take(s.core, u, running),
                                          taken := s.taken + [Taking(s.core.tasks[k], u)])
    case None => Goto(s, u, NoTask)
  }

  predicate At(s: State, u: nat, pc: Pc) { u < |s.workers| && s.workers[u].pc == pc }

  // The assertion of Fiber::resume: the fiber that the worker holds is not RUNNING.
  predicate Refused(s: State, u: nat)
    requires u < |s.workers| && s.workers[u].pc.Taken?
  {
    s.workers[u].pc.task.work.Fiber? && s.workers[u].pc.task.work.id in RunningFibers(s.workers)
  }

  // When each step may happen.
  predicate Enabled(s: State, e: Event) {
    !s.aborted &&
    match e
    case Stop => !s.core.stopping
    case Outside(_, _) => !s.core.stopping
    case Start(u) => At(s, u, NotStarted)
    case Scan(u) => At(s, u, Top)
    case Resume(u) => u < |s.workers| && s.workers[u].pc.Taken?
    case Add(u, _, _) => u < |s.workers| && (s.workers[u].pc.Running? || s.workers[u].pc.Idle?)
    case Return(u) => u < |s.workers| && s.workers[u].pc.Running?
    case Finish(u) => At(s, u, Returned)
    case Rest(u) => At(s, u, NoTask) && !s.workers[u].idleEnded
    case Wake(u, ends) => At(s, u, Idle) && (ends ==> IsStopping(s.core))
    case Leave(u) => At(s, u, NoTask) && s.workers[u].idleEnded
  }

  function Next(s: State, e: Event): State
    requires Enabled(s, e)
  {
    match e
    case Stop => s.(core := s.core.(stopping := true))
    case Outside(work, thread) => Scheduled(s, work, thread)
    case Start(u) => Goto(s, u, Top)
    case Scan(u) => Scanned(s, u)
    case Resume(u) => if Refused(s, u) then s.(aborted := true) else Goto(s, u, Running(s.workers[u].pc.task))
    case Add(_, work, thread) => Scheduled(s, work, thread)
    case Return(u) => Goto(s, u, Returned)
    case Finish(u) => Goto(s, u, Top).(core := s.core.(active := s.core.active - 1))
    case Rest(u) => Goto(s, u, Idle)
    case Wake(u, ends) => s.(workers := s.workers[u := Worker(Top, ends)])
    case Leave(u) => Goto(s, u, Exited)
  }

  // ---------------------------------------------------------------- the invariant

  predicate Busy(w: Worker) { w.pc.Taken? || w.pc.Running? || w.pc.Returned? }

  function Count(ws: seq<Worker>): nat {
    if ws == [] then 0 else Count(ws[..|ws| - 1]) + if Busy(ws[|ws| - 1]) then 1 else 0
  }

  // Every idle fiber has ended.
  predicate AllEnded(ws: seq<Worker>) { forall u :: 0 <= u < |ws| ==> ws[u].idleEnded }

  function Tasks(taken: seq<Taking>): seq<Task> {
    if taken == [] then [] else Tasks(taken[..|taken| - 1]) + [taken[|taken| - 1].task]
  }

  // The callbacks for one thread, or for any.
  function One(t: Task, thread: int): seq<Task> { if t.work.Callback? && t.thread == thread then [t] else [] }

  function Callbacks(tasks: seq<Task>, thread: int): seq<Task> {
    if tasks == [] then [] else Callbacks(tasks[..|tasks| - 1], thread) + One(tasks[|tasks| - 1], thread)
  }

  ghost predicate WorkersOk(s: State) {
    && |s.workers| > 0
    && s.core.active == Count(s.workers)
    && (forall u :: 0 <= u < |s.workers| ==> s.workers[u].pc.Exited? ==> s.workers[u].idleEnded)
    && (forall u :: 0 <= u < |s.workers| ==> s.workers[u].pc.Idle? ==> !s.workers[u].idleEnded)
  }

  // Once the last idle fiber has ended, nothing is queued and nothing runs, and so nothing ever will.
  ghost predicate QueueOk(s: State) {
    && (forall i :: 0 <= i < |s.core.tasks| ==> !s.core.tasks[i].work.Nothing?)
    && (AllEnded(s.workers) ==> IsStopping(s.core))
  }

  // Nothing is lost or taken twice, pinned tasks go to their thread, callbacks of one kind go first in, first out.
  ghost predicate Conserved(s: State) {
    && (forall i :: 0 <= i < |s.added| ==> s.added[i].id == i)
    && multiset(s.added) == multiset(s.core.tasks) + multiset(Tasks(s.taken))
    && (forall k :: 0 <= k < |s.taken| ==> s.taken[k].task.thread == ANY || s.taken[k].task.thread == s.taken[k].taker)
  }

  ghost predicate InOrder(taken: seq<Task>, tasks: seq<Task>, added: seq<Task>, c: int) {
    Callbacks(taken, c) + Callbacks(tasks, c) == Callbacks(added, c)
  }

  ghost predicate Fifo(s: State, c: int) { InOrder(Tasks(s.taken), s.core.tasks, s.added, c) }

  ghost predicate Inv(s: State) { WorkersOk(s) && QueueOk(s) && Conserved(s) && forall c :: Fifo(s, c) }

  // ---------------------------------------------------------------- every step keeps it

  lemma {:induction false} CountUpdate(ws: seq<Worker>, u: nat, w: Worker)
    requires u < |ws|
    ensures Count(ws[u := w]) - (if Busy(w) then 1 else 0) == Count(ws) - if Busy(ws[u]) then 1 else 0
    decreases |ws|
  {
    var n := |ws| - 1;
    if u == n {
      assert ws[u := w][..n] == ws[..n];
    } else {
      assert ws[u := w][..n] == ws[..n][u := w];
      CountUpdate(ws[..n], u, w);
    }
  }

  lemma {:induction false} CountInit(threads: nat)
    ensures Count(Init(threads).workers) == 0
  {
    var ws := Init(threads).workers;
    if threads > 0 {
      assert ws[..threads - 1] == Init(threads - 1).workers;
      CountInit(threads - 1);
    }
  }

  lemma {:induction false} InitOk(threads: nat)
    requires threads > 0
    ensures Inv(Init(threads))
  {
    CountInit(threads);
  }

  lemma {:induction false} WorkersKept(s: State, e: Event)
    requires WorkersOk(s) && Enabled(s, e)
    ensures WorkersOk(Next(s, e))
  {
    match e
    case Stop =>
    case Outside(_, _) =>
    case Add(_, _, _) =>
    case Start(u) => MovesOn(s, u, Top);
    case Scan(u) =>
      match First(s.core.tasks, u, RunningFibers(s.workers)) {
        case Some(k) => MovesOn(s, u, Taken(s.core.tasks[k]));
        case None => MovesOn(s, u, NoTask);
      }
    case Resume(u) => if !Refused(s, u) { MovesOn(s, u, Running(s.workers[u].pc.task)); }
    case Return(u) => MovesOn(s, u, Returned);
    case Finish(u) => MovesOn(s, u, Top);
    case Rest(u) => MovesOn(s, u, Idle);
    case Wake(u, ends) => CountUpdate(s.workers, u, Worker(Top, ends));
    case Leave(u) => MovesOn(s, u, Exited);
  }

  // One worker at another place: the others are as they were, and the count follows.
  lemma {:induction false} MovesOn(s: State, u: nat, pc: Pc)
    requires WorkersOk(s) && u < |s.workers|
    requires (pc.Exited? ==> s.workers[u].idleEnded) && (pc.Idle? ==> !s.workers[u].idleEnded)
    ensures var ws := Goto(s, u, pc).workers;
            && |ws| == |s.workers|
            && Count(ws) == s.core.active + (if Busy(Worker(pc, false)) then 1 else 0) -
                            (if Busy(s.workers[u]) then 1 else 0)
            && (forall v :: 0 <= v < |ws| ==> ws[v].pc.Exited? ==> ws[v].idleEnded)
            && (forall v :: 0 <= v < |ws| ==> ws[v].pc.Idle? ==> !ws[v].idleEnded)
  {
    CountUpdate(s.workers, u, s.workers[u].(pc := pc));
  }

  // The heart of it: while any worker is busy or idling some idle fiber has not ended, and only such workers add tasks.
  lemma {:induction false} QueueKept(s: State, e: Event)
    requires WorkersOk(s) && QueueOk(s) && Enabled(s, e)
    ensures QueueOk(Next(s, e))
  {
    var s' := Next(s, e);
    NoneBusy(s.workers);
    match e
    case Stop =>
    case Outside(_, _) => assert !AllEnded(s.workers);
    case Add(u, _, _) => assert !AllEnded(s.workers);
    case Wake(u, ends) => assert s'.workers[u].idleEnded == ends;
    case Scan(u) => SameEnds(s, s', u);
    case Leave(u) => SameEnds(s, s', u);
    case Start(u) => SameEnds(s, s', u);
    case Resume(u) => if !Refused(s, u) { SameEnds(s, s', u); }
    case Return(u) => SameEnds(s, s', u);
    case Finish(u) => SameEnds(s, s', u);
    case Rest(u) => SameEnds(s, s', u);
  }

  lemma {:induction false} SameEnds(s: State, s': State, u: nat)
    requires u < |s.workers| == |s'.workers| && s'.workers == s.workers[u := s.workers[u].(pc := s'.workers[u].pc)]
    ensures AllEnded(s'.workers) <==> AllEnded(s.workers)
  {
    assert forall v :: 0 <= v < |s.workers| ==> s'.workers[v].idleEnded == s.workers[v].idleEnded;
  }

  // ---------------------------------------------------------------- history

  lemma {:induction false} TasksSnoc(taken: seq<Taking>, x: Taking)
    ensures Tasks(taken + [x]) == Tasks(taken) + [x.task]
  {
    assert (taken + [x])[..|taken|] == taken;
  }

  lemma {:induction false} CallbacksSnoc(tasks: seq<Task>, t: Task, c: int)
    ensures Callbacks(tasks + [t], c) == Callbacks(tasks, c) + One(t, c)
  {
    assert (tasks + [t])[..|tasks|] == tasks;
  }

  lemma {:induction false} CallbacksJoin(a: seq<Task>, b: seq<Task>, c: int)
    ensures Callbacks(a + b, c) == Callbacks(a, c) + Callbacks(b, c)
    decreases |b|
  {
    if b == [] {
      assert a + b == a;
    } else {
      var front, t := b[..|b| - 1], b[|b| - 1];
      assert b == front + [t] && a + b == (a + front) + [t];
      CallbacksJoin(a, front, c);
      CallbacksSnoc(a + front, t, c);
      CallbacksSnoc(front, t, c);
      Regroup(Callbacks(a, c), Callbacks(front, c), One(t, c));
    }
  }

  lemma {:induction false} NoCallbacks(tasks: seq<Task>, c: int)
    requires forall i :: 0 <= i < |tasks| ==> One(tasks[i], c) == []
    ensures Callbacks(tasks, c) == []
  {
    if tasks != [] { NoCallbacks(tasks[..|tasks| - 1], c); }
  }

  // A task taken from the front of those its taker may run: its kind's order is kept.
  lemma {:induction false} FirstOfItsKind(tasks: seq<Task>, u: int, running: set<nat>, k: nat, c: int)
    requires First(tasks, u, running) == Some(k)
    ensures Callbacks(tasks, c) == One(tasks[k], c) + Callbacks(Without(tasks, k), c)
  {
    var t, front, back := tasks[k], tasks[..k], tasks[k + 1..];
    assert tasks == (front + [t]) + back;
    CallbacksJoin(front + [t], back, c);
    CallbacksSnoc(front, t, c);
    CallbacksJoin(front, back, c);
    if One(t, c) != [] { NoneBefore(tasks, u, running, k, c); }
    Slide(Callbacks(front, c), One(t, c), Callbacks(back, c));
  }

  lemma {:induction false} Slide(a: seq<Task>, b: seq<Task>, c: seq<Task>)
    requires a == [] || b == []
    ensures (a + b) + c == b + (a + c)
  {
  }

  lemma {:induction false} NoneBefore(tasks: seq<Task>, u: int, running: set<nat>, k: nat, c: int)
    requires First(tasks, u, running) == Some(k) && One(tasks[k], c) != []
    ensures Callbacks(tasks[..k], c) == []
  {
    var front := tasks[..k];
    forall i | 0 <= i < k ensures One(front[i], c) == [] {
      assert !Eligible(tasks[i], u, running);
    }
    NoCallbacks(front, c);
  }

  lemma {:induction false} InOrderAdd(taken: seq<Task>, tasks: seq<Task>, added: seq<Task>, t: Task, c: int)
    requires InOrder(taken, tasks, added, c)
    ensures InOrder(taken, tasks + [t], added + [t], c)
  {
    CallbacksSnoc(added, t, c);
    CallbacksSnoc(tasks, t, c);
    Regroup(Callbacks(taken, c), Callbacks(tasks, c), One(t, c));
  }

  lemma {:induction false} InOrderTake(taken: seq<Task>, tasks: seq<Task>, added: seq<Task>, u: int, running: set<nat>,
                                       k: nat, c: int)
    requires InOrder(taken, tasks, added, c) && First(tasks, u, running) == Some(k)
    ensures InOrder(taken + [tasks[k]], Without(tasks, k), added, c)
  {
    FirstOfItsKind(tasks, u, running, k, c);
    CallbacksSnoc(taken, tasks[k], c);
    Regroup(Callbacks(taken, c), One(tasks[k], c), Callbacks(Without(tasks, k), c));
  }

  lemma {:induction false} TakeOne(tasks: seq<Task>, k: nat)
    requires k < |tasks|
    ensures multiset(tasks) == multiset(Without(tasks, k)) + multiset([tasks[k]])
  {
    assert tasks == tasks[..k] + [tasks[k]] + tasks[k + 1..];
  }

  lemma {:induction false} MoveOne(tasks: seq<Task>, k: nat, taken: seq<Task>)
    requires k < |tasks|
    ensures multiset(tasks) + multiset(taken) == multiset(Without(tasks, k)) + multiset(taken + [tasks[k]])
  {
    TakeOne(tasks, k);
  }

  lemma {:induction false} AddConserves(tasks: seq<Task>, taken: seq<Task>, added: seq<Task>, t: Task)
    requires multiset(added) == multiset(tasks) + multiset(taken)
    ensures multiset(added + [t]) == multiset(tasks + [t]) + multiset(taken)
  {
  }

  lemma {:induction false} AddKeepsHistory(s: State, work: Work, thread: int)
    requires Conserved(s) && forall c :: Fifo(s, c)
    ensures Conserved(Scheduled(s, work, thread)) && forall c :: Fifo(Scheduled(s, work, thread), c)
  {
    var t := Task(|s.added|, work, thread);
    if !work.Nothing? {
      AddConserves(s.core.tasks, Tasks(s.taken), s.added, t);
      forall c ensures Fifo(Scheduled(s, work, thread), c) {
        assert Fifo(s, c);
        InOrderAdd(Tasks(s.taken), s.core.tasks, s.added, t, c);
      }
    }
  }

  lemma {:induction false} ScanConserves(s: State, u: nat)
    requires Conserved(s) && u < |s.workers|
    ensures Conserved(Scanned(s, u))
  {
    match First(s.core.tasks, u, RunningFibers(s.workers))
    case None =>
    case Some(k) =>
      TasksSnoc(s.taken, Taking(s.core.tasks[k], u));
      MoveOne(s.core.tasks, k, Tasks(s.taken));
  }

  lemma {:induction false} ScanKeepsOrder(s: State, u: nat, c: int)
    requires Fifo(s, c) && u < |s.workers|
    ensures Fifo(Scanned(s, u), c)
  {
    match First(s.core.tasks, u, RunningFibers(s.workers))
    case None =>
    case Some(k) =>
      TasksSnoc(s.taken, Taking(s.core.tasks[k], u));
      InOrderTake(Tasks(s.taken), s.core.tasks, s.added, u, RunningFibers(s.workers), k, c);
  }

  lemma {:induction false} StepKeepsInv(s: State, e: Event)
    requires Inv(s) && Enabled(s, e)
    ensures Inv(Next(s, e))
  {
    WorkersKept(s, e);
    QueueKept(s, e);
    match e {
      case Outside(work, thread) => AddKeepsHistory(s, work, thread);
      case Add(_, work, thread) => AddKeepsHistory(s, work, thread);
      case Scan(u) =>
        ScanConserves(s, u);
        forall c ensures Fifo(Next(s, e), c) { assert Fifo(s, c); ScanKeepsOrder(s, u, c); }
      case _ =>
        forall c ensures Fifo(Next(s, e), c) { assert Fifo(s, c); }
    }
  }

  // ---------------------------------------------------------------- whole runs

  // A run: each step enabled where it happens.
  ghost predicate IsRun(ss: seq<State>, es: seq<Event>) {
    && |ss| == |es| + 1
    && (forall i :: 0 <= i < |es| ==> Enabled(ss[i], es[i]) && ss[i + 1] == Next(ss[i], es[i]))
  }

  lemma {:induction false} RunKeepsInv(ss: seq<State>, es: seq<Event>, i: nat)
    requires IsRun(ss, es) && Inv(ss[0]) && i < |ss|
    ensures Inv(ss[i])
    decreases i
  {
    if i > 0 {
      RunKeepsInv(ss, es, i - 1);
      StepKeepsInv(ss[i - 1], es[i - 1]);
    }
  }

  // When the last worker has left run, nothing is queued, pinned or not, and nothing is in flight: every task that was
  // ever scheduled has been taken.
  lemma {:induction false} NothingLeftBehind(threads: nat, ss: seq<State>, es: seq<Event>)
    requires threads > 0 && IsRun(ss, es) && ss[0] == Init(threads)
    ensures var s := ss[|es|];
            (forall u :: 0 <= u < |s.workers| ==> s.workers[u].pc.Exited?) ==>
              IsStopping(s.core) && multiset(s.added) == multiset(Tasks(s.taken))
  {
    InitOk(threads);
    RunKeepsInv(ss, es, |es|);
  }

  // A look at the queue that found nothing for this worker.
  ghost predicate LookedInVain(s: State, e: Event, u: nat) {
    e == Scan(u) && First(s.core.tasks, u, RunningFibers(s.workers)).None?
  }

  // Whoever adds a task looks through the whole queue again, and finds nothing for itself, before it leaves.
  lemma {:induction false} AdderLooksAgain(ss: seq<State>, es: seq<Event>, i: nat, j: nat, u: nat)
    requires IsRun(ss, es) && i < j < |es| && es[i].Add? && es[i].u == u && es[j] == Leave(u)
    ensures exists k :: i < k < j && LookedInVain(ss[k], es[k], u)
  {
    assert Enabled(ss[i], es[i]) && ss[i + 1] == Next(ss[i], es[i]) && Enabled(ss[j], es[j]);
    LastLook(ss, es, i + 1, j, u);
  }

  lemma {:induction false} LastLook(ss: seq<State>, es: seq<Event>, m: nat, j: nat, u: nat)
    requires IsRun(ss, es) && m <= j < |ss| && u < |ss[m].workers| && !ss[m].workers[u].pc.NoTask?
    requires u < |ss[j].workers| && ss[j].workers[u].pc.NoTask?
    ensures exists k :: m <= k < j && LookedInVain(ss[k], es[k], u)
    decreases j
  {
    var p, e := ss[j - 1], es[j - 1];
    assert Enabled(p, e) && ss[j] == Next(p, e);
    if p.workers[u].pc.NoTask? {
      LastLook(ss, es, m, j - 1, u);
    } else {
      assert LookedInVain(p, e, u);
    }
  }

  lemma {:induction false} NoneBusy(ws: seq<Worker>)
    ensures Count(ws) == 0 <==> forall u :: 0 <= u < |ws| ==> !Busy(ws[u])
  {
    if ws != [] {
      var n := |ws| - 1;
      NoneBusy(ws[..n]);
      assert forall u :: 0 <= u < n ==> ws[..n][u] == ws[u];
    }
  }

  // A true stopping(), and so the end of any idle fiber: nothing is queued and no thread holds a task.
  lemma {:induction false} StoppingMeansDone(threads: nat, ss: seq<State>, es: seq<Event>, i: nat)
    requires threads > 0 && IsRun(ss, es) && ss[0] == Init(threads) && i < |ss| && IsStopping(ss[i].core)
    ensures ss[i].core.tasks == [] && forall u :: 0 <= u < |ss[i].workers| ==> !Busy(ss[i].workers[u])
    ensures multiset(ss[i].added) == multiset(Tasks(ss[i].taken))
  {
    InitOk(threads);
    RunKeepsInv(ss, es, i);
    NoneBusy(ss[i].workers);
  }

  // Every task ever scheduled is either queued, once, or was taken, once and by a thread that may run it.
  lemma {:induction false} TakenOnce(threads: nat, ss: seq<State>, es: seq<Event>, i: nat, k: nat)
    requires threads > 0 && IsRun(ss, es) && ss[0] == Init(threads) && i < |ss| && k < |ss[i].added|
    ensures var s := ss[i]; var t := s.added[k];
            multiset(s.core.tasks)[t] + multiset(Tasks(s.taken))[t] == 1
    ensures forall j :: 0 <= j < |ss[i].taken| ==>
              ss[i].taken[j].task.thread == ANY || ss[i].taken[j].task.thread == ss[i].taken[j].taker
  {
    InitOk(threads);
    RunKeepsInv(ss, es, i);
    OnlyOne(ss[i].added, k);
  }

  lemma {:induction false} OnlyOne(added: seq<Task>, k: nat)
    requires k < |added| && forall i :: 0 <= i < |added| ==> added[i].id == i
    ensures multiset(added)[added[k]] == 1
  {
    assert added == added[..k] + ([added[k]] + added[k + 1..]);
    assert added[k] !in added[..k] && added[k] !in added[k + 1..];
  }

  // The callbacks for any one thread, or for all, are taken in the order they were scheduled.
  lemma {:induction false} FirstInFirstOut(threads: nat, ss: seq<State>, es: seq<Event>, i: nat, c: int)
    requires threads > 0 && IsRun(ss, es) && ss[0] == Init(threads) && i < |ss|
    ensures Callbacks(Tasks(ss[i].taken), c) <= Callbacks(ss[i].added, c)
  {
    InitOk(threads);
    RunKeepsInv(ss, es, i);
    assert Fifo(ss[i], c);
  }

  // ---------------------------------------------------------------- when stop can end

  // It has left, or leaves without another look at the queue.
  predicate Gone(w: Worker) { w.pc.Exited? || (w.pc.NoTask? && w.idleEnded) }

  // A queued task for a thread that is gone, or that never was.
  ghost predicate Doomed(s: State, t: Task) {
    && t in s.core.tasks && t.thread != ANY
    && (t.thread < 0 || t.thread >= |s.workers| || Gone(s.workers[t.thread]))
  }

  ghost predicate NoneDoomed(s: State) { forall t :: t in s.core.tasks ==> !Doomed(s, t) }

  predicate AllExited(s: State) { forall u :: 0 <= u < |s.workers| ==> s.workers[u].pc.Exited? }

  ghost predicate Reaches(a: State, b: State) {
    exists ss: seq<State>, es: seq<Event> :: IsRun(ss, es) && ss[0] == a && ss[|es|] == b
  }

  // Some continuation ends with every worker out of run, which is what stop waits for.
  ghost predicate CanEnd(s: State) { exists e :: Reaches(s, e) && AllExited(e) }

  lemma {:induction false} StaysDoomed(s: State, e: Event, t: Task)
    requires Doomed(s, t) && Enabled(s, e)
    ensures Doomed(Next(s, e), t)
  {
    if e.Scan? {
      match First(s.core.tasks, e.u, RunningFibers(s.workers)) {
        case None =>
        case Some(k) =>
          var i :| 0 <= i < |s.core.tasks| && s.core.tasks[i] == t;
          assert Eligible(s.core.tasks[k], e.u, RunningFibers(s.workers));
          assert Without(s.core.tasks, k)[if i < k then i else i - 1] == t;
      }
    }
  }

  // Once doomed, a task stays in the queue in every continuation, and some worker never leaves: stop waits for ever.
  lemma {:induction false} DoomedBlocksStop(s: State, ss: seq<State>, es: seq<Event>, t: Task)
    requires Inv(s) && Doomed(s, t) && IsRun(ss, es) && ss[0] == s
    ensures Doomed(ss[|es|], t) && !AllExited(ss[|es|])
    decreases |es|
  {
    RunKeepsInv(ss, es, |es|);
    if es != [] {
      var n := |es| - 1;
      DoomedBlocksStop(s, ss[..n + 1], es[..n], t);
      StaysDoomed(ss[n], es[n], t);
    }
    assert !AllEnded(ss[|es|].workers);
  }

  lemma {:induction false} ReachNext(a: State, b: State, e: Event)
    requires Reaches(a, b) && Enabled(b, e)
    ensures Reaches(a, Next(b, e))
  {
    var ss: seq<State>, es: seq<Event> :| IsRun(ss, es) && ss[0] == a && ss[|es|] == b;
    assert IsRun(ss + [Next(b, e)], es + [e]);
  }

  lemma {:induction false} ReachSelf(a: State)
    ensures Reaches(a, a)
  {
    var none: seq<Event> := [];
    assert IsRun([a], none);
  }

  // The steps that schedule nothing, and what can be reached by them alone.
  predicate Quietly(e: Event) { !e.Add? && !e.Outside? }

  ghost predicate Drifts(a: State, b: State) {
    exists ss: seq<State>, es: seq<Event> ::
      IsRun(ss, es) && ss[0] == a && ss[|es|] == b && forall k :: 0 <= k < |es| ==> Quietly(es[k])
  }

  lemma {:induction false} DriftNext(a: State, b: State, e: Event)
    requires Drifts(a, b) && Enabled(b, e) && Quietly(e)
    ensures Drifts(a, Next(b, e))
  {
    var ss: seq<State>, es: seq<Event> :|
      IsRun(ss, es) && ss[0] == a && ss[|es|] == b && forall k :: 0 <= k < |es| ==> Quietly(es[k]);
    assert IsRun(ss + [Next(b, e)], es + [e]);
  }

  lemma {:induction false} DriftSelf(a: State)
    ensures Drifts(a, a)
  {
    var none: seq<Event> := [];
    assert IsRun([a], none);
  }

  // Reached from `a` without any scheduling, sound, and going on.
  ghost predicate Alive(a: State, s: State) { Drifts(a, s) && Inv(s) && !s.aborted }

  lemma {:induction false} Go(a: State, b: State, e: Event) returns (c: State)
    requires Alive(a, b) && Enabled(b, e) && Quietly(e) && !Next(b, e).aborted
    ensures Alive(a, c) && c == Next(b, e)
  {
    DriftNext(a, b, e);
    StepKeepsInv(b, e);
    c := Next(b, e);
  }

  ghost predicate NoneRuns(s: State) { forall u :: 0 <= u < |s.workers| ==> !s.workers[u].pc.Running? }
  ghost predicate Quiet(s: State) { forall u :: 0 <= u < |s.workers| ==> !Busy(s.workers[u]) }

  // One worker has moved to the top of its loop, with or without its idle fiber; the queue is as it was.
  ghost predicate AtTop(s: State, u: nat, s': State) {
    && u < |s.workers| && s'.core.tasks == s.core.tasks && s'.core.stopping == s.core.stopping
    && s'.workers == s.workers[u := Worker(Top, s.workers[u].idleEnded)]
  }

  lemma {:induction false} NoFibers(s: State)
    ensures NoneRuns(s) ==> RunningFibers(s.workers) == {}
  {
  }

  // A busy worker gets through its task.
  lemma {:induction false} GetsThrough(a: State, s: State, u: nat) returns (s': State)
    requires Alive(a, s) && u < |s.workers| && Busy(s.workers[u])
    requires s.workers[u].pc.Taken? ==> NoneRuns(s)
    ensures Alive(a, s') && AtTop(s, u, s')
    decreases match s.workers[u].pc case Taken(_) => 2 case Running(_) => 1 case _ => 0
  {
    if s.workers[u].pc.Returned? {
      s' := Go(a, s, Finish(u));
    } else {
      NoFibers(s);
      var s1 := Go(a, s, if s.workers[u].pc.Taken? then Resume(u) else Return(u));
      s' := GetsThrough(a, s1, u);
    }
  }

  // Nobody is gone that was not, and no task is new.
  ghost predicate NoWorse(s: State, s': State) {
    && |s'.workers| == |s.workers| && (forall t :: t in s'.core.tasks ==> t in s.core.tasks)
    && forall u :: 0 <= u < |s.workers| && Gone(s'.workers[u]) ==> Gone(s.workers[u])
  }

  // All busy workers get through.
  lemma {:induction false} AllGetThrough(a: State, s: State) returns (s': State)
    requires Alive(a, s) && NoneDoomed(s)
    ensures Alive(a, s') && NoneDoomed(s') && Quiet(s')
    decreases Count(s.workers)
  {
    NoneBusy(s.workers);
    if Quiet(s) { return s; }
    var u :| 0 <= u < |s.workers| && Busy(s.workers[u]);
    if !NoneRuns(s) { u :| 0 <= u < |s.workers| && s.workers[u].pc.Running?; }
    var s1 := GetsThrough(a, s, u);
    CountUpdate(s.workers, u, s1.workers[u]);
    assert NoWorse(s, s1);
    s' := AllGetThrough(a, s1);
  }

  // A worker that is neither busy nor gone comes to the top of its loop.
  lemma {:induction false} ComesToTop(a: State, s: State, u: nat) returns (s': State)
    requires Alive(a, s) && u < |s.workers| && !Busy(s.workers[u]) && !Gone(s.workers[u])
    ensures Alive(a, s') && AtTop(s, u, s')
  {
    s' := s;
    if s'.workers[u].pc.NotStarted? { s' := Go(a, s', Start(u)); }
    if s'.workers[u].pc.NoTask? { s' := Go(a, s', Rest(u)); }
    if s'.workers[u].pc.Idle? { s' := Go(a, s', Wake(u, false)); }
    assert s'.workers == s.workers[u := Worker(Top, s.workers[u].idleEnded)];
  }

  // The first task of the queue is run by its worker, or by one whose idle fiber has not ended.
  lemma {:induction false} FirstIsRun(a: State, s: State) returns (s': State)
    requires Alive(a, s) && NoneDoomed(s) && Quiet(s) && s.core.tasks != []
    ensures Alive(a, s') && NoneDoomed(s') && Quiet(s') && |s'.core.tasks| < |s.core.tasks|
  {
    var u := WorkerForFirst(s);
    var s1 := ComesToTop(a, s, u);
    var s2 := TakesFirst(a, s1, u);
    s' := GetsThrough(a, s2, u);
    assert NoWorse(s, s');
  }

  lemma {:induction false} WorkerForFirst(s: State) returns (u: nat)
    requires Inv(s) && NoneDoomed(s) && s.core.tasks != []
    ensures u < |s.workers| && !Gone(s.workers[u]) && (s.core.tasks[0].thread == ANY || s.core.tasks[0].thread == u)
  {
    var t := s.core.tasks[0];
    assert t in s.core.tasks && !Doomed(s, t) && !AllEnded(s.workers);
    if t.thread == ANY {
      u :| u < |s.workers| && !s.workers[u].idleEnded;
    } else {
      u := t.thread;
    }
  }

  lemma {:induction false} TakesFirst(a: State, s: State, u: nat) returns (s': State)
    requires Alive(a, s) && At(s, u, Top) && Quiet(s) && s.core.tasks != []
    requires s.core.tasks[0].thread == ANY || s.core.tasks[0].thread == u
    ensures Alive(a, s') && s'.core.tasks == s.core.tasks[1..]
    ensures s'.workers == s.workers[u := Worker(Taken(s.core.tasks[0]), s.workers[u].idleEnded)]
  {
    NoFibers(s);
    assert Eligible(s.core.tasks[0], u, {});
    FirstIs(s.core.tasks, u, {}, 0);
    s' := Go(a, s, Scan(u));
    assert s'.core.tasks == s.core.tasks[1..];
  }

  lemma {:induction false} QueueIsRun(a: State, s: State) returns (s': State)
    requires Alive(a, s) && NoneDoomed(s) && Quiet(s)
    ensures Alive(a, s') && Quiet(s') && s'.core.tasks == []
    decreases |s.core.tasks|
  {
    if s.core.tasks == [] { return s; }
    var s1 := FirstIsRun(a, s);
    s' := QueueIsRun(a, s1);
  }

  // With nothing queued and nothing running a worker can leave.
  lemma {:induction false} CanLeave(a: State, s: State, u: nat) returns (s': State)
    requires Alive(a, s) && Quiet(s) && s.core.tasks == [] && s.core.stopping && u < |s.workers|
    ensures Alive(a, s') && Quiet(s') && s'.core.tasks == [] && s'.core.stopping
    ensures s'.workers == s.workers[u := Worker(Exited, true)]
  {
    if s.workers[u].pc.Exited? {
      assert s.workers[u] == Worker(Exited, true);
      s' := s;
    } else if Gone(s.workers[u]) {
      s' := Go(a, s, Leave(u));
    } else {
      s' := ComesToTop(a, s, u);
      if !s.workers[u].idleEnded { s' := IdleEnds(a, s', u); }
      s' := LooksAndLeaves(a, s', u);
    }
  }

  lemma {:induction false} LooksAndLeaves(a: State, s: State, u: nat) returns (s': State)
    requires Alive(a, s) && s.core.tasks == [] && s.core.stopping && u < |s.workers| &&
             s.workers[u] == Worker(Top, true)
    ensures Alive(a, s') && s'.core.tasks == [] && s'.core.stopping &&
            s'.workers == s.workers[u := Worker(Exited, true)]
  {
    s' := Go(a, s, Scan(u));
    s' := Go(a, s', Leave(u));
  }

  lemma {:induction false} IdleEnds(a: State, s: State, u: nat) returns (s': State)
    requires Alive(a, s) && Quiet(s) && s.core.tasks == [] && s.core.stopping && At(s, u, Top) &&
             !s.workers[u].idleEnded
    ensures Alive(a, s') && s'.core.tasks == [] && s'.core.stopping && s'.workers == s.workers[u := Worker(Top, true)]
  {
    s' := Go(a, s, Scan(u));
    s' := Go(a, s', Rest(u));
    NoneBusy(s'.workers);
    s' := Go(a, s', Wake(u, true));
  }

  lemma {:induction false} AllCanLeave(a: State, s: State, n: nat) returns (s': State)
    requires Alive(a, s) && Quiet(s) && s.core.tasks == [] && s.core.stopping && n <= |s.workers|
    requires forall u :: 0 <= u < n ==> s.workers[u].pc.Exited?
    ensures Drifts(a, s') && AllExited(s')
    decreases |s.workers| - n
  {
    if n == |s.workers| { return s; }
    var s1 := CanLeave(a, s, n);
    s' := AllCanLeave(a, s1, n + 1);
  }

  // For every sound state: stop can end exactly when no queued task is doomed.
  lemma {:induction false} CanEndIff(s: State)
    requires Inv(s) && !s.aborted
    ensures CanEnd(s) <==> NoneDoomed(s)
  {
    if NoneDoomed(s) {
      DriftSelf(s);
      var s1 := AllGetThrough(s, s);
      var s2 := QueueIsRun(s, s1);
      if !s2.core.stopping { s2 := Go(s, s2, Stop); }
      var e := AllCanLeave(s, s2, 0);
    } else {
      var t :| t in s.core.tasks && Doomed(s, t);
      forall e | Reaches(s, e) ensures !AllExited(e) {
        var ss: seq<State>, es: seq<Event> :| IsRun(ss, es) && ss[0] == s && ss[|es|] == e;
        DoomedBlocksStop(s, ss, es, t);
      }
    }
  }

  // Such a state can come about: one worker leaves; the other, still idle, is handed a task by its idle fiber (as the
  // event loop does when a timer runs out), and that task schedules one for the worker that has left.
  lemma {:induction false} DoomedIsReachable() returns (s: State, t: Task)
    ensures Reaches(Init(2), s) && Doomed(s, t) && s.core.stopping && !s.aborted
  {
    s := BothIdle();
    var gone, first := Worker(Exited, true), Task(0, Callback, ANY);
    s := Do(Init(2), s, Wake(0, true));
    s := Do(Init(2), s, Scan(0));
    s := Do(Init(2), s, Leave(0));
    assert s == State(Core([], 0, true), [gone, Worker(Idle, false)], [], [], false);
    s := Do(Init(2), s, Add(1, Callback, ANY));
    s := Do(Init(2), s, Wake(1, false));
    assert s == State(Core([first], 0, true), [gone, Worker(Top, false)], [first], [], false);
    assert Eligible(first, 1, RunningFibers(s.workers));
    FirstIs(s.core.tasks, 1, RunningFibers(s.workers), 0);
    s := Do(Init(2), s, Scan(1));
    assert s.workers[1] == Worker(Taken(first), false) && s.workers[0] == gone && s.added == [first];
    assert s.core.stopping && !s.aborted;
    s := Do(Init(2), s, Resume(1));
    s := Do(Init(2), s, Add(1, Callback, 0));
    t := Task(1, Callback, 0);
  }

  lemma {:induction false} Do(a: State, b: State, e: Event) returns (c: State)
    requires Reaches(a, b) && Enabled(b, e)
    ensures Reaches(a, c) && c == Next(b, e)
  {
    ReachNext(a, b, e);
    c := Next(b, e);
  }

  lemma {:induction false} Begin(threads: nat) returns (s: State)
    ensures Reaches(Init(threads), s) && s == Init(threads)
  {
    s := Init(threads);
    ReachSelf(s);
  }

  lemma {:induction false} BothIdle() returns (s: State)
    ensures Reaches(Init(2), s)
    ensures s == State(Core([], 0, true), [Worker(Idle, false), Worker(Idle, false)], [], [], false)
  {
    s := Begin(2);
    s := Do(Init(2), s, Start(0));
    s := Do(Init(2), s, Start(1));
    s := Do(Init(2), s, Scan(0));
    s := Do(Init(2), s, Scan(1));
    assert s == State(Core([], 0, false), [Worker(NoTask, false), Worker(NoTask, false)], [], [], false);
    s := Do(Init(2), s, Rest(0));
    s := Do(Init(2), s, Rest(1));
    s := Do(Init(2), s, Stop);
  }
}
