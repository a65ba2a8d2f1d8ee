/** The event registry of the IO manager: who waits for what on which descriptor, and what the kernel was told. */
module EventRegistry {
  import opened Ascii

  datatype Event = READ | WRITE

  datatype Mask = Mask(read: bool, write: bool) {
    predicate Has(e: Event) { if e.READ? then read else write }
    predicate IsNone() { !read && !write }
    function With(e: Event): Mask { if e.READ? then this.(read := true) else this.(write := true) }
    function Without(e: Event): Mask { if e.READ? then this.(read := false) else this.(write := false) }
    function And(m: Mask): Mask { Mask(read && m.read, write && m.write) }
    function Or(m: Mask): Mask { Mask(read || m.read, write || m.write) }
    function Minus(m: Mask): Mask { Mask(read && !m.read, write && !m.write) }
  }

  const NONE: Mask := Mask(false, false)

  // A waiter is the fiber or callback of one registration; registrations are numbered as they succeed.
  datatype FdContext = FdContext(fd: nat, events: Mask, read: Option<nat>, write: Option<nat>) {
    function Waiter(e: Event): Option<nat> { if e.READ? then read else write }
    function Set(e: Event, w: Option<nat>): FdContext { if e.READ? then this.(read := w) else this.(write := w) }
    function Waiters(): multiset<nat> {
      (if read.Some? then multiset{read.value} else multiset{}) +
      (if write.Some? then multiset{write.value} else multiset{})
    }
  }

  function NewContext(fd: nat): FdContext { FdContext(fd, NONE, None, None) }

  // What epoll keeps of a descriptor: the interest mask, and the context that a report points at.
  datatype Watch = Watch(mask: Mask, ctx: nat)

  datatype CtlOp = ADD | MOD | DEL

  // What epoll reports for a descriptor; `broken` is EPOLLERR or EPOLLHUP.
  datatype Report = Report(ready: Mask, broken: bool)

  // An error or a hang-up counts as both events, of those registered.
  function Came(report: Report, events: Mask): Mask {
    if report.broken then report.ready.Or(events) else report.ready
  }

  // `heap` are the contexts ever made: one that is cut off the vector is not freed, and whoever holds it may use it.
  // `vector` are the pointers to them by descriptor. `misused` is set when epoll_ctl is asked to ADD a descriptor that
  // is watched, or to MOD or DEL one that is not, which it refuses.
  datatype Registry = Registry(heap: seq<FdContext>, vector: seq<nat>, pending: int, kernel: map<nat, Watch>,
                               scheduled: seq<nat>, issued: nat, misused: bool)

  // Done: what was asked for was done. Failed: it was not, and the call says so. Asserted: an assertion failed.
  datatype Result = Done | Failed | Asserted
  datatype Outcome = Outcome(reg: Registry, result: Result)

  // ---------------------------------------------------------------- the critical sections

  function Fresh(lo: nat, hi: nat): (s: seq<FdContext>)
    requires lo <= hi
    ensures |s| == hi - lo && forall i :: 0 <= i < |s| ==> s[i] == NewContext(lo + i)
  {
    seq(hi - lo, i requires 0 <= i => NewContext(lo + i))
  }

  function Start(): Registry { Registry(Fresh(0, 32), seq(32, i requires 0 <= i => i), 0, map[], [], 0, false) }

  // The read-locked look at the vector.
  function Look(r: Registry, fd: nat): Option<nat> { if fd < |r.vector| then Some(r.vector[fd]) else None }

  // contextResize: the vector can also get shorter.
  function Resized(r: Registry, size: nat): Registry {
    if size <= |r.vector| then r.(vector := r.vector[..size])
    else
      var n, m := |r.vector|, |r.heap|;
      r.(heap := r.heap + Fresh(n, size), vector := r.vector + seq(size - n, i requires 0 <= i => m + i))
  }

  function Ctl(r: Registry, op: CtlOp, fd: nat, w: Watch, ok: bool): (o: Outcome)
    ensures o.result != Asserted
  {
    if (op == ADD) != (fd !in r.kernel) then Outcome(r.(misused := true), Failed)
    else if !ok then Outcome(r, Failed)
    else Outcome(r.(kernel := if op == DEL then r.kernel - {fd} else r.kernel[fd := w]), Done)
  }

  // MOD or DEL, as what is left demands.
  function Update(r: Registry, c: nat, left: Mask, ok: bool): Outcome
    requires c < |r.heap|
  {
    Ctl(r, if left.IsNone() then DEL else MOD, r.heap[c].fd, Watch(left, c), ok)
  }

  function Register(r: Registry, c: nat, e: Event, ok: bool): Outcome
    requires c < |r.heap|
  {
    var ctx := r.heap[c];
    if ctx.events.Has(e) then Outcome(r, Asserted)
    else
      var mask := ctx.events.With(e);
      var o := Ctl(r, if ctx.events.IsNone() then ADD else MOD, ctx.fd, Watch(mask, c), ok);
      if o.result.Failed? then o
      else
        Outcome(o.reg.(pending := r.pending + 1, issued := r.issued + 1,
                       heap := r.heap[c := ctx.(events := mask).Set(e, Some(r.issued))]), Done)
  }

  // triggerEvent and the count.
  function Trigger(r: Registry, c: nat, e: Event): Registry
    requires c < |r.heap|
  {
    var ctx := r.heap[c];
    r.(heap := r.heap[c := ctx.(events := ctx.events.Without(e)).Set(e, None)], pending := r.pending - 1,
       scheduled := match ctx.Waiter(e) case Some(t) => r.scheduled + [t] case None => r.scheduled)
  }

  // Reader first.
  function TriggerAll(r: Registry, c: nat, mask: Mask): Registry
    requires c < |r.heap|
  {
    var r1 := if mask.read then Trigger(r, c, READ) else r;
    if mask.write then Trigger(r1, c, WRITE) else r1
  }

  function Cancel(r: Registry, c: nat, e: Event, ok: bool): Outcome
    requires c < |r.heap|
  {
    if !r.heap[c].events.Has(e) then Outcome(r, Failed)
    else
      var o := Update(r, c, r.heap[c].events.Without(e), ok);
      if o.result.Failed? then o else Outcome(Trigger(o.reg, c, e), Done)
  }

  function CancelAll(r: Registry, c: nat, ok: bool): Outcome
    requires c < |r.heap|
  {
    if r.heap[c].events.IsNone() then Outcome(r, Failed)
    else
      var o := Update(r, c, NONE, ok);
      if o.result.Failed? then o else Outcome(TriggerAll(o.reg, c, r.heap[c].events), Done)
  }

  // One report in idle. The reported events are not cut to the registered ones, so triggering one that is not
  // registered fails its assertion.
  function Handle(r: Registry, c: nat, report: Report, ok: bool): Outcome
    requires c < |r.heap|
  {
    var events := r.heap[c].events;
    var came := Came(report, events);
    if events.And(came).IsNone() then Outcome(r, Failed)
    else
      var o := Update(r, c, events.Minus(came), ok);
      if o.result.Failed? then o
      else if !came.Minus(events).IsNone() then Outcome(o.reg, Asserted)
      else Outcome(TriggerAll(o.reg, c, came), Done)
  }

  // delEvent takes the waiter away and leaves the bit set.
  function Delete(r: Registry, c: nat, e: Event, ok: bool): Outcome
    requires c < |r.heap|
  {
    if !r.heap[c].events.Has(e) then Outcome(r, Failed)
    else
      var o := Update(r, c, r.heap[c].events.Without(e), ok);
      if o.result.Failed? then o
      else Outcome(o.reg.(pending := r.pending - 1, heap := r.heap[c := r.heap[c].Set(e, None)]), Done)
  }

  // ---------------------------------------------------------------- the class

  class IOManager {
    var heap: seq<FdContext>
    var vector: seq<nat>
    var pending: int
    var kernel: map<nat, Watch>
    var scheduled: seq<nat>
    var issued: nat
    var misused: bool

    function View(): Registry
      reads this
    {
      Registry(heap, vector, pending, kernel, scheduled, issued, misused)
    }

    constructor ()
      ensures View() == Start()
    {
      heap, vector := Fresh(0, 32), seq(32, i requires 0 <= i => i);
      pending, kernel, scheduled, issued, misused := 0, map[], [], 0, false;
    }

    method EpollCtl(op: CtlOp, fd: nat, w: Watch, ok: bool) returns (rt: int)
      modifies this`kernel, this`misused
      ensures View() == Ctl(old(View()), op, fd, w, ok).reg
      ensures rt == if Ctl(old(View()), op, fd, w, ok).result.Done? then 0 else -1
    {
      if (op == ADD) != (fd !in kernel) {
        misused := true;
        return -1;
      }
      if !ok { return -1; }
      if op == DEL { kernel := kernel - {fd}; } else { kernel := kernel[fd := w]; }
      rt := 0;
    }

    // The vector is resized, and the places that hold no context yet get one.
    method ContextResize(size: nat)
      modifies this`heap, this`vector
      ensures View() == Resized(old(View()), size)
    {
      if size <= |vector| {
        vector := vector[..size];
        return;
      }
      ghost var n, m := |vector|, |heap|;
      for i := |vector| to size
        invariant heap == old(heap) + Fresh(n, i) && vector == old(vector) + seq(i - n, j requires 0 <= j => m + j)
      {
        vector := vector + [|heap|];
        heap := heap + [NewContext(i)];
      }
    }

    // The parts of addEvent: the look and, where the vector is too short, the resize; then the locked section.
    method FindContext(fd: nat) returns (c: Option<nat>)
      ensures c == Look(View(), fd)
    {
      c := if |vector| > fd then Some(vector[fd]) else None;
    }

    method GrowFor(fd: nat) returns (c: nat)
      requires fd >= 2
      modifies this`heap, this`vector
      ensures View() == Resized(old(View()), fd * 3 / 2) && Look(View(), fd) == Some(c)
    {
      ContextResize(fd * 3 / 2);
      c := vector[fd];
    }

    method RegisterEvent(c: nat, e: Event, ok: bool) returns (r: Result)
      requires c < |heap|
      modifies this
      ensures View() == Register(old(View()), c, e, ok).reg && r == Register(old(View()), c, e, ok).result
    {
      var ctx := heap[c];
      if ctx.events.Has(e) { return Asserted; }
      var op := if ctx.events.IsNone() then ADD else MOD;
      var rt := EpollCtl(op, ctx.fd, Watch(ctx.events.With(e), c), ok);
      if rt != 0 { return Failed; }
      pending := pending + 1;
      ctx := ctx.(events := ctx.events.With(e));
      heap := heap[c := ctx.Set(e, Some(issued))];
      issued := issued + 1;
      r := Done;
    }

    method TriggerEvent(c: nat, e: Event)
      requires c < |heap|
      modifies this`heap, this`pending, this`scheduled
      ensures View() == Trigger(old(View()), c, e)
    {
      var ctx := heap[c];
      ctx := ctx.(events := ctx.events.Without(e));
      if ctx.Waiter(e).Some? { scheduled := scheduled + [ctx.Waiter(e).value]; }
      heap := heap[c := ctx.Set(e, None)];
      pending := pending - 1;
    }

    method TriggerEvents(c: nat, mask: Mask)
      requires c < |heap|
      modifies this`heap, this`pending, this`scheduled
      ensures View() == TriggerAll(old(View()), c, mask)
    {
      if mask.read { TriggerEvent(c, READ); }
      if mask.write { TriggerEvent(c, WRITE); }
    }

    method CancelEvent(c: nat, e: Event, ok: bool) returns (r: bool)
      requires c < |heap|
      modifies this
      ensures View() == Cancel(old(View()), c, e, ok).reg && r == Cancel(old(View()), c, e, ok).result.Done?
    {
      var ctx := heap[c];
      if !ctx.events.Has(e) { return false; }
      var left := ctx.events.Without(e);
      var rt := EpollCtl(if left.IsNone() then DEL else MOD, ctx.fd, Watch(left, c), ok);
      if rt != 0 { return false; }
      TriggerEvent(c, e);
      r := true;
    }

    method CancelEvents(c: nat, ok: bool) returns (r: bool)
      requires c < |heap|
      modifies this
      ensures View() == CancelAll(old(View()), c, ok).reg && r == CancelAll(old(View()), c, ok).result.Done?
    {
      var ctx := heap[c];
      if ctx.events.IsNone() { return false; }
      var rt := EpollCtl(DEL, ctx.fd, Watch(NONE, c), ok);
      if rt != 0 { return false; }
      TriggerEvents(c, ctx.events);
      assert heap[c].events.IsNone();  // SYLAR_ASSERT(fd_ctx->events == 0)
      r := true;
    }

    method HandleReport(c: nat, report: Report, ok: bool) returns (asserted: bool)
      requires c < |heap|
      modifies this
      ensures asserted == Handle(old(View()), c, report, ok).result.Asserted?
      ensures View() == Handle(old(View()), c, report, ok).reg
    {
      var ctx := heap[c];
      var came := Came(report, ctx.events);
      if ctx.events.And(came).IsNone() { return false; }
      var left := ctx.events.Minus(came);
      var rt := EpollCtl(if left.IsNone() then DEL else MOD, ctx.fd, Watch(left, c), ok);
      if rt != 0 { return false; }
      if !came.Minus(ctx.events).IsNone() { return true; }
      TriggerEvents(c, came);
      asserted := false;
    }

    method DelEvent(c: nat, e: Event, ok: bool) returns (r: bool)
      requires c < |heap|
      modifies this
      ensures View() == Delete(old(View()), c, e, ok).reg && r == Delete(old(View()), c, e, ok).result.Done?
    {
      var ctx := heap[c];
      if !ctx.events.Has(e) { return false; }
      var left := ctx.events.Without(e);
      var rt := EpollCtl(if left.IsNone() then DEL else MOD, ctx.fd, Watch(left, c), ok);
      if rt != 0 { return false; }
      pending := pending - 1;
      heap := heap[c := ctx.Set(e, None)];
      r := true;
    }
  }

  // ---------------------------------------------------------------- what the registry keeps

  // An event context is filled exactly when its bit is set.
  predicate Filled(ctx: FdContext) { ctx.events.read == ctx.read.Some? && ctx.events.write == ctx.write.Some? }

  // The vector points at a context of each descriptor below its size.
  ghost predicate VectorOk(heap: seq<FdContext>, vector: seq<nat>) {
    && |vector| >= 32
    && forall fd :: 0 <= fd < |vector| ==> vector[fd] < |heap| && heap[vector[fd]].fd == fd
  }

  // The context that the vector has for its descriptor.
  predicate Current(heap: seq<FdContext>, vector: seq<nat>, c: nat) {
    c < |heap| && heap[c].fd < |vector| && vector[heap[c].fd] == c
  }

  // Contexts are filled as their bits say, and nobody waits on one that was cut off.
  ghost predicate ContextOk(heap: seq<FdContext>, vector: seq<nat>, c: nat) {
    c < |heap| ==> Filled(heap[c]) && (Current(heap, vector, c) || heap[c].events.IsNone())
  }

  // The kernel watches exactly the registered events, and points at their context.
  ghost predicate WatchOk(heap: seq<FdContext>, vector: seq<nat>, kernel: map<nat, Watch>, fd: nat)
    requires VectorOk(heap, vector)
  {
    if fd < |vector| && !heap[vector[fd]].events.IsNone()
    then fd in kernel && kernel[fd] == Watch(heap[vector[fd]].events, vector[fd])
    else fd !in kernel
  }

  // The waiters in all contexts, cut off or not.
  function Waiting(heap: seq<FdContext>): multiset<nat> {
    if heap == [] then multiset{} else Waiting(heap[..|heap| - 1]) + heap[|heap| - 1].Waiters()
  }

  // Every registration so far is either pending or scheduled, exactly once, and nothing else is.
  ghost predicate Conserved(waiting: multiset<nat>, scheduled: seq<nat>, issued: nat) {
    forall t: nat :: multiset(scheduled)[t] + waiting[t] == if t < issued then 1 else 0
  }

  ghost predicate Accounted(r: Registry) {
    r.pending == |Waiting(r.heap)| && Conserved(Waiting(r.heap), r.scheduled, r.issued)
  }

  ghost predicate Linked(heap: seq<FdContext>, vector: seq<nat>, kernel: map<nat, Watch>) {
    && VectorOk(heap, vector)
    && (forall c :: ContextOk(heap, vector, c))
    && (forall fd :: WatchOk(heap, vector, kernel, fd))
  }

  ghost predicate Sound(r: Registry) { Linked(r.heap, r.vector, r.kernel) && Accounted(r) && !r.misused }

  lemma {:induction false} WaitingUpdate(heap: seq<FdContext>, c: nat, ctx: FdContext)
    requires c < |heap|
    ensures Waiting(heap[c := ctx]) + heap[c].Waiters() == Waiting(heap) + ctx.Waiters()
    decreases |heap|
  {
    var n := |heap| - 1;
    if c == n {
      assert heap[c := ctx][..n] == heap[..n];
    } else {
      var front, last := heap[..n], heap[n];
      assert heap[c := ctx][..n] == front[c := ctx] && heap[c := ctx][n] == last;
      WaitingUpdate(front, c, ctx);
      Across(Waiting(front[c := ctx]), heap[c].Waiters(), Waiting(front), ctx.Waiters(), last.Waiters());
    }
  }

  lemma {:induction false} Across(a: multiset<nat>, x: multiset<nat>, b: multiset<nat>, y: multiset<nat>,
                                  z: multiset<nat>)
    requires a + x == b + y
    ensures (a + z) + x == (b + z) + y
  {
    assert (a + z) + x == (a + x) + z;
    assert (b + z) + y == (b + y) + z;
  }

  lemma {:induction false} Cancelled(a: multiset<nat>, x: multiset<nat>, b: multiset<nat>, y: multiset<nat>,
                                     z: multiset<nat>)
    requires a + x == b + y && y == x + z
    ensures a == b + z
  {
    forall t ensures a[t] == (b + z)[t] { assert (a + x)[t] == (b + y)[t]; }
  }

  // A context that has one waiter more.
  lemma {:induction false} OneMore(heap: seq<FdContext>, c: nat, e: Event, events: Mask, t: nat)
    requires c < |heap| && heap[c].Waiter(e).None?
    ensures Waiting(heap[c := heap[c].(events := events).Set(e, Some(t))]) == Waiting(heap) + multiset{t}
  {
    var ctx' := heap[c].(events := events).Set(e, Some(t));
    WaitingUpdate(heap, c, ctx');
    assert ctx'.Waiters() == heap[c].Waiters() + multiset{t};
    Cancelled(Waiting(heap[c := ctx']), heap[c].Waiters(), Waiting(heap), ctx'.Waiters(), multiset{t});
  }

  // And one that has one waiter less.
  lemma {:induction false} OneLess(heap: seq<FdContext>, c: nat, e: Event, events: Mask, t: nat)
    requires c < |heap| && heap[c].Waiter(e) == Some(t)
    ensures Waiting(heap) == Waiting(heap[c := heap[c].(events := events).Set(e, None)]) + multiset{t}
  {
    var ctx' := heap[c].(events := events).Set(e, None);
    WaitingUpdate(heap, c, ctx');
    assert heap[c].Waiters() == ctx'.Waiters() + multiset{t};
    Cancelled(Waiting(heap), ctx'.Waiters(), Waiting(heap[c := ctx']), heap[c].Waiters(), multiset{t});
  }

  // One current context changed, and the kernel was told.
  lemma {:induction false} LinkedUpdate(heap: seq<FdContext>, vector: seq<nat>, kernel: map<nat, Watch>, c: nat,
                                        ctx: FdContext)
    requires Linked(heap, vector, kernel) && Current(heap, vector, c) && ctx.fd == heap[c].fd && Filled(ctx)
    ensures var kernel' := if ctx.events.IsNone() then kernel - {ctx.fd} else kernel[ctx.fd := Watch(ctx.events, c)];
            Linked(heap[c := ctx], vector, kernel')
  {
    var heap' := heap[c := ctx];
    var kernel' := if ctx.events.IsNone() then kernel - {ctx.fd} else kernel[ctx.fd := Watch(ctx.events, c)];
    forall i ensures ContextOk(heap', vector, i) { assert ContextOk(heap, vector, i); }
    forall fd ensures WatchOk(heap', vector, kernel', fd) { assert WatchOk(heap, vector, kernel, fd); }
  }

  lemma {:induction false} StartIsSound()
    ensures Sound(Start())
  {
    var r := Start();
    NothingWaits(r.heap);
    forall c ensures ContextOk(r.heap, r.vector, c) {}
    forall fd ensures WatchOk(r.heap, r.vector, r.kernel, fd) {}
  }

  lemma {:induction false} NothingWaits(heap: seq<FdContext>)
    requires forall c :: 0 <= c < |heap| ==> heap[c].read.None? && heap[c].write.None?
    ensures Waiting(heap) == multiset{}
  {
    if heap != [] { NothingWaits(heap[..|heap| - 1]); }
  }

  // ---------------------------------------------------------------- what each section does to a sound registry

  lemma {:induction false} ConservedMoves(a: multiset<nat>, b: multiset<nat>, scheduled: seq<nat>, issued: nat, t: nat)
    requires Conserved(a, scheduled, issued) && a == b + multiset{t}
    ensures Conserved(b, scheduled + [t], issued)
  {
    forall x: nat ensures multiset(scheduled + [t])[x] + b[x] == if x < issued then 1 else 0 {
      assert multiset(scheduled)[x] + a[x] == if x < issued then 1 else 0;
    }
  }

  lemma {:induction false} ConservedIssues(a: multiset<nat>, b: multiset<nat>, scheduled: seq<nat>, issued: nat)
    requires Conserved(a, scheduled, issued) && b == a + multiset{issued}
    ensures Conserved(b, scheduled, issued + 1)
  {
    forall x: nat ensures multiset(scheduled)[x] + b[x] == if x < issued + 1 then 1 else 0 {
      assert multiset(scheduled)[x] + a[x] == if x < issued then 1 else 0;
    }
  }

  // The operation is legal: ADD is for a descriptor without registered events, MOD and DEL for one that has some.
  lemma {:induction false} CtlIsLegal(r: Registry, c: nat)
    requires Linked(r.heap, r.vector, r.kernel) && Current(r.heap, r.vector, c)
    ensures r.heap[c].fd in r.kernel <==> !r.heap[c].events.IsNone()
  {
    assert WatchOk(r.heap, r.vector, r.kernel, r.heap[c].fd);
  }

  function Registered(r: Registry, c: nat, e: Event): Registry
    requires c < |r.heap|
  {
    var ctx := r.heap[c].(events := r.heap[c].events.With(e)).Set(e, Some(r.issued));
    r.(heap := r.heap[c := ctx], pending := r.pending + 1, issued := r.issued + 1,
       kernel := r.kernel[ctx.fd := Watch(ctx.events, c)])
  }

  // A registration on a current context: it is refused when the event has a waiter, fails only when the kernel does,
  // and adds its waiter otherwise.
  lemma {:induction false} RegisterIs(r: Registry, c: nat, e: Event, ok: bool)
    requires Sound(r) && Current(r.heap, r.vector, c)
    ensures Register(r, c, e, ok) ==
            if r.heap[c].Waiter(e).Some? then Outcome(r, Asserted)
            else if ok then Outcome(Registered(r, c, e), Done)
            else Outcome(r, Failed)
  {
    assert ContextOk(r.heap, r.vector, c);
    CtlIsLegal(r, c);
  }

  // In each case the registry stays sound.
  lemma {:induction false} RegisterIsSound(r: Registry, c: nat, e: Event, ok: bool)
    requires Sound(r) && Current(r.heap, r.vector, c)
    ensures Sound(Register(r, c, e, ok).reg)
  {
    RegisterIs(r, c, e, ok);
    if r.heap[c].Waiter(e).None? && ok {
      var r' := Registered(r, c, e);
      assert ContextOk(r.heap, r.vector, c);
      LinkedUpdate(r.heap, r.vector, r.kernel, c, r'.heap[c]);
      OneMore(r.heap, c, e, r'.heap[c].events, r.issued);
      ConservedIssues(Waiting(r.heap), Waiting(r'.heap), r.scheduled, r.issued);
    }
  }

  // The waiters of the events in `mask`, in the order in which they are triggered.
  function Fired(scheduled: seq<nat>, ctx: FdContext, mask: Mask): seq<nat> {
    var first := if mask.read && ctx.read.Some? then scheduled + [ctx.read.value] else scheduled;
    if mask.write && ctx.write.Some? then first + [ctx.write.value] else first
  }

  // A context without them.
  function Emptied(ctx: FdContext, mask: Mask): FdContext {
    var first := if mask.read then ctx.(events := ctx.events.Without(READ)).Set(READ, None) else ctx;
    if mask.write then first.(events := first.events.Without(WRITE)).Set(WRITE, None) else first
  }

  lemma {:induction false} TriggerAccounts(r: Registry, c: nat, e: Event)
    requires Accounted(r) && c < |r.heap| && r.heap[c].Waiter(e).Some?
    ensures var r' := Trigger(r, c, e);
            && Accounted(r') && r'.scheduled == r.scheduled + [r.heap[c].Waiter(e).value]
            && r'.heap == r.heap[c := r.heap[c].(events := r.heap[c].events.Without(e)).Set(e, None)]
  {
    var ctx := r.heap[c];
    var ctx', t := ctx.(events := ctx.events.Without(e)).Set(e, None), ctx.Waiter(e).value;
    OneLess(r.heap, c, e, ctx'.events, t);
    ConservedMoves(Waiting(r.heap), Waiting(r.heap[c := ctx']), r.scheduled, r.issued, t);
  }

  // Events that have waiters are triggered: exactly those waiters are scheduled, reader first.
  lemma {:induction false} TriggerAllAccounts(r: Registry, c: nat, mask: Mask)
    requires Accounted(r) && c < |r.heap| && Filled(r.heap[c]) && mask.Minus(r.heap[c].events).IsNone()
    ensures var r' := TriggerAll(r, c, mask);
            && Accounted(r') && r'.scheduled == Fired(r.scheduled, r.heap[c], mask)
            && r'.heap == r.heap[c := Emptied(r.heap[c], mask)]
            && r' == r.(heap := r'.heap, scheduled := r'.scheduled, pending := r'.pending)
  {
    var r1 := if mask.read then Trigger(r, c, READ) else r;
    if mask.read { TriggerAccounts(r, c, READ); }
    if mask.write { TriggerAccounts(r1, c, WRITE); }
    assert r1.heap[c := r1.heap[c]] == r1.heap;
  }

  // What taking the events of `mask` off a current context comes to, once the kernel has been told.
  lemma {:induction false} TakenOff(r: Registry, c: nat, mask: Mask, o: Outcome)
    requires Sound(r) && Current(r.heap, r.vector, c) && mask.Minus(r.heap[c].events).IsNone()
    requires !r.heap[c].events.IsNone() && o == Update(r, c, r.heap[c].events.Minus(mask), true)
    ensures o.result.Done?
    ensures var r' := TriggerAll(o.reg, c, mask);
            && Sound(r') && r'.vector == r.vector && r'.issued == r.issued
            && r'.heap == r.heap[c := Emptied(r.heap[c], mask)] && r'.scheduled == Fired(r.scheduled, r.heap[c], mask)
  {
    var ctx := r.heap[c];
    assert ContextOk(r.heap, r.vector, c);
    CtlIsLegal(r, c);
    TriggerAllAccounts(o.reg, c, mask);
    LinkedUpdate(r.heap, r.vector, r.kernel, c, Emptied(ctx, mask));
    assert Emptied(ctx, mask).events == ctx.events.Minus(mask);
  }

  // The kernel refuses: nothing changes.
  lemma {:induction false} RefusedChangesNothing(r: Registry, c: nat, left: Mask)
    requires Sound(r) && Current(r.heap, r.vector, c) && !r.heap[c].events.IsNone()
    ensures Update(r, c, left, false) == Outcome(r, Failed)
  {
    CtlIsLegal(r, c);
  }

  function Only(e: Event): Mask { NONE.With(e) }

  lemma {:induction false} TriggerIsOnly(r: Registry, c: nat, e: Event)
    requires c < |r.heap|
    ensures Trigger(r, c, e) == TriggerAll(r, c, Only(e)) &&
            r.heap[c].events.Without(e) == r.heap[c].events.Minus(Only(e))
  {
  }

  // A cancellation on a current context schedules exactly the waiter of the event.
  lemma {:induction false} CancelIsSound(r: Registry, c: nat, e: Event, ok: bool)
    requires Sound(r) && Current(r.heap, r.vector, c)
    ensures var o := Cancel(r, c, e, ok);
            && Sound(o.reg) && o.reg.vector == r.vector && |o.reg.heap| == |r.heap| && o.reg.issued == r.issued
            && o.result == (if r.heap[c].Waiter(e).Some? && ok then Done else Failed)
            && (o.result.Failed? ==> o.reg == r)
            && (o.result.Done? ==> o.reg.scheduled == r.scheduled + [r.heap[c].Waiter(e).value] &&
                                   o.reg.heap == r.heap[c := Emptied(r.heap[c], Only(e))])
  {
    assert ContextOk(r.heap, r.vector, c);
    if r.heap[c].events.Has(e) {
      TriggerIsOnly(r, c, e);
      var o := Update(r, c, r.heap[c].events.Without(e), ok);
      if ok {
        TakenOff(r, c, Only(e), o);
        TriggerIsOnly(o.reg, c, e);
      } else {
        RefusedChangesNothing(r, c, r.heap[c].events.Without(e));
      }
    }
  }

  lemma {:induction false} AllTaken(ctx: FdContext)
    requires Filled(ctx)
    ensures ctx.events.Minus(ctx.events) == NONE && Emptied(ctx, ctx.events) == NewContext(ctx.fd)
  {
  }

  // Cancelling all schedules exactly the waiters of the descriptor, and leaves none.
  lemma {:induction false} CancelAllIsSound(r: Registry, c: nat, ok: bool)
    requires Sound(r) && Current(r.heap, r.vector, c)
    ensures var o := CancelAll(r, c, ok); var ctx := r.heap[c];
            && Sound(o.reg) && o.reg.vector == r.vector && |o.reg.heap| == |r.heap| && o.reg.issued == r.issued
            && o.result == (if !ctx.events.IsNone() && ok then Done else Failed)
            && (o.result.Failed? ==> o.reg == r)
            && (o.result.Done? ==> o.reg.scheduled == Fired(r.scheduled, ctx, ctx.events) &&
                                   o.reg.heap == r.heap[c := NewContext(ctx.fd)])
  {
    var ctx := r.heap[c];
    assert ContextOk(r.heap, r.vector, c);
    if !ctx.events.IsNone() {
      if ok {
        AllTaken(ctx);
        TakenOff(r, c, ctx.events, Update(r, c, NONE, ok));
      } else {
        RefusedChangesNothing(r, c, NONE);
      }
    }
  }

  // A report on a current context schedules exactly the waiters of the reported events. Its assertion fails exactly
  // when some reported event is registered and some is not.
  lemma {:induction false} HandleIsSound(r: Registry, c: nat, report: Report, ok: bool)
    requires Sound(r) && Current(r.heap, r.vector, c)
    ensures var o := Handle(r, c, report, ok); var ctx := r.heap[c]; var came := Came(report, ctx.events);
            && (o.result.Asserted? <==> ok && !ctx.events.And(came).IsNone() && !came.Minus(ctx.events).IsNone())
            && (!o.result.Asserted? ==>
                  Sound(o.reg) && o.reg.vector == r.vector && |o.reg.heap| == |r.heap| && o.reg.issued == r.issued)
            && (o.result.Done? ==> o.reg.scheduled == Fired(r.scheduled, ctx, came) &&
                                   o.reg.heap == r.heap[c := Emptied(ctx, came)])
            && (o.result.Failed? ==> o.reg == r && (ctx.events.And(came).IsNone() || !ok))
  {
    var ctx := r.heap[c];
    var came := Came(report, ctx.events);
    assert ContextOk(r.heap, r.vector, c);
    if !ctx.events.And(came).IsNone() {
      var o := Update(r, c, ctx.events.Minus(came), ok);
      if !ok {
        RefusedChangesNothing(r, c, ctx.events.Minus(came));
      } else if came.Minus(ctx.events).IsNone() {
        TakenOff(r, c, came, o);
      } else {
        CtlIsLegal(r, c);
      }
    }
  }

  // On a context that was cut off, nothing happens but for a registration.
  lemma {:induction false} CutOffIsInert(r: Registry, c: nat, e: Event, report: Report, ok: bool)
    requires Sound(r) && c < |r.heap| && !Current(r.heap, r.vector, c)
    ensures Cancel(r, c, e, ok) == Outcome(r, Failed) && CancelAll(r, c, ok) == Outcome(r, Failed)
    ensures Handle(r, c, report, ok) == Outcome(r, Failed)
    ensures ok ==> !Sound(Register(r, c, e, ok).reg)
  {
    assert ContextOk(r.heap, r.vector, c);
    var o := Register(r, c, e, ok);
    if ok && !o.reg.misused { assert !ContextOk(o.reg.heap, o.reg.vector, c); }
  }

  // delEvent leaves a sound registry exactly when it returns false.
  lemma {:induction false} DeleteIsSoundIff(r: Registry, c: nat, e: Event, ok: bool)
    requires Sound(r) && Current(r.heap, r.vector, c)
    ensures var o := Delete(r, c, e, ok);
            && o.result == (if r.heap[c].Waiter(e).Some? && ok then Done else Failed)
            && (Sound(o.reg) <==> o.result.Failed?)
            && (o.result.Done? ==> Register(o.reg, c, e, true).result.Asserted?)
  {
    assert ContextOk(r.heap, r.vector, c);
    CtlIsLegal(r, c);
    var o := Delete(r, c, e, ok);
    if o.result.Done? { assert !ContextOk(o.reg.heap, o.reg.vector, c); }
  }

  // A resize keeps a sound registry sound exactly when nobody waits on a descriptor that it cuts off.
  lemma {:induction false} ResizeIsSoundIff(r: Registry, size: nat)
    requires Sound(r) && size >= 32
    ensures Sound(Resized(r, size)) <==>
            forall c :: 0 <= c < |r.heap| && r.heap[c].fd >= size ==> r.heap[c].events.IsNone()
    ensures forall c :: 0 <= c < |r.heap| && Current(r.heap, r.vector, c) && r.heap[c].fd < size ==>
              Current(Resized(r, size).heap, Resized(r, size).vector, c)
  {
    var r' := Resized(r, size);
    if size <= |r.vector| {
      if c :| 0 <= c < |r.heap| && r.heap[c].fd >= size && !r.heap[c].events.IsNone() {
        assert !ContextOk(r'.heap, r'.vector, c);
      } else {
        forall c ensures ContextOk(r'.heap, r'.vector, c) { assert ContextOk(r.heap, r.vector, c); }
        forall fd ensures WatchOk(r'.heap, r'.vector, r'.kernel, fd) { assert WatchOk(r.heap, r.vector, r.kernel, fd); }
      }
    } else {
      LongerIsSound(r, size);
    }
  }

  lemma {:induction false} LongerIsSound(r: Registry, size: nat)
    requires Sound(r) && size > |r.vector|
    ensures Sound(Resized(r, size))
    ensures forall c :: 0 <= c < |r.heap| && r.heap[c].fd >= size ==> r.heap[c].events.IsNone()
  {
    FreshAddsNothing(r.heap, |r.vector|, size);
    LongerIsLinked(r.heap, r.vector, r.kernel, size);
    assert Accounted(Resized(r, size));
    forall c | 0 <= c < |r.heap| && r.heap[c].fd >= size ensures r.heap[c].events.IsNone() {
      assert ContextOk(r.heap, r.vector, c);
    }
  }

  lemma {:induction false} LongerIsLinked(heap: seq<FdContext>, vector: seq<nat>, kernel: map<nat, Watch>, size: nat)
    requires Linked(heap, vector, kernel) && size > |vector|
    ensures var n, m := |vector|, |heap|;
            Linked(heap + Fresh(n, size), vector + seq(size - n, i requires 0 <= i => m + i), kernel)
  {
    var n, m := |vector|, |heap|;
    var heap', vector' := heap + Fresh(n, size), vector + seq(size - n, i requires 0 <= i => m + i);
    forall fd | 0 <= fd < |vector'| ensures vector'[fd] < |heap'| && heap'[vector'[fd]].fd == fd {
      if fd >= n { assert vector'[fd] == m + (fd - n); }
    }
    forall c: nat ensures ContextOk(heap', vector', c) {
      assert ContextOk(heap, vector, c);
      if m <= c < |heap'| { assert heap'[c] == NewContext(n + (c - m)); }
    }
    forall fd: nat ensures WatchOk(heap', vector', kernel, fd) {
      assert WatchOk(heap, vector, kernel, fd);
      if n <= fd < |vector'| { assert heap'[vector'[fd]] == NewContext(fd); }
    }
  }

  lemma {:induction false} FreshAddsNothing(heap: seq<FdContext>, lo: nat, hi: nat)
    requires lo <= hi
    ensures Waiting(heap + Fresh(lo, hi)) == Waiting(heap)
  {
    WaitingJoin(heap, Fresh(lo, hi));
    NothingWaits(Fresh(lo, hi));
  }

  lemma {:induction false} WaitingJoin(a: seq<FdContext>, b: seq<FdContext>)
    ensures Waiting(a + b) == Waiting(a) + Waiting(b)
    decreases |b|
  {
    if b == [] {
      assert a + b == a;
    } else {
      var n := |b| - 1;
      assert (a + b)[..|a| + n] == a + b[..n];
      WaitingJoin(a, b[..n]);
    }
  }

  // ---------------------------------------------------------------- counts

  // The number of event bits set over all contexts.
  function Bits(heap: seq<FdContext>): nat {
    if heap == [] then 0
    else
      var m := heap[|heap| - 1].events;
      Bits(heap[..|heap| - 1]) + (if m.read then 1 else 0) + if m.write then 1 else 0
  }

  // That is what the count of pending events counts.
  lemma {:induction false} PendingIsBits(r: Registry)
    requires Sound(r)
    ensures r.pending == Bits(r.heap)
  {
    forall c | 0 <= c < |r.heap| ensures Filled(r.heap[c]) { assert ContextOk(r.heap, r.vector, c); }
    WaitingIsBits(r.heap);
  }

  lemma {:induction false} WaitingIsBits(heap: seq<FdContext>)
    requires forall c :: 0 <= c < |heap| ==> Filled(heap[c])
    ensures |Waiting(heap)| == Bits(heap)
  {
    if heap != [] {
      var n := |heap| - 1;
      WaitingIsBits(heap[..n]);
      assert Filled(heap[n]);
    }
  }

  // A scheduled waiter was scheduled once and is not pending any more; one that is not was never scheduled.
  lemma {:induction false} NeverTwice(r: Registry)
    requires Accounted(r)
    ensures forall i, j :: 0 <= i < j < |r.scheduled| ==> r.scheduled[i] != r.scheduled[j]
    ensures forall t: nat :: t in Waiting(r.heap) ==> t !in r.scheduled && Waiting(r.heap)[t] == 1
    ensures forall t: nat :: t < r.issued ==> t in r.scheduled || t in Waiting(r.heap)
  {
    var s, w := r.scheduled, Waiting(r.heap);
    forall i, j | 0 <= i < j < |s| ensures s[i] != s[j] {
      assert multiset(s)[s[i]] + w[s[i]] <= 1;
      assert s == s[..i] + [s[i]] + s[i + 1..];
      assert s[i + 1..][j - i - 1] == s[j];
    }
    forall t: nat | t in w ensures t !in s && w[t] == 1 { assert multiset(s)[t] + w[t] <= 1; }
    forall t: nat | t < r.issued ensures t in s || t in w { assert multiset(s)[t] + w[t] == 1; }
  }

  // Readiness and a time-out racing for one waiter: whichever comes second finds it gone, and it is resumed once.
  lemma {:induction false} RaceResumesOnce(r: Registry, c: nat, e: Event, timeoutFirst: bool) returns (r': Registry)
    requires Sound(r) && Current(r.heap, r.vector, c) && r.heap[c].events == Only(e)
    ensures var report := Report(Only(e), false);
            r' == if timeoutFirst then Handle(Cancel(r, c, e, true).reg, c, report, true).reg
                  else Cancel(Handle(r, c, report, true).reg, c, e, true).reg
    ensures Sound(r') && r'.heap[c].events == NONE && r.heap[c].Waiter(e).Some?
    ensures r'.scheduled == r.scheduled + [r.heap[c].Waiter(e).value]
  {
    var report := Report(Only(e), false);
    assert ContextOk(r.heap, r.vector, c);
    if timeoutFirst {
      CancelIsSound(r, c, e, true);
      HandleIsSound(Cancel(r, c, e, true).reg, c, report, true);
      r' := Handle(Cancel(r, c, e, true).reg, c, report, true).reg;
    } else {
      HandleIsSound(r, c, report, true);
      CancelIsSound(Handle(r, c, report, true).reg, c, e, true);
      r' := Cancel(Handle(r, c, report, true).reg, c, e, true).reg;
    }
  }

  // With two waiters it goes wrong: a report of both that is overtaken by the cancellation of one fails the assertion.
  lemma {:induction false} OvertakenAsserts(r: Registry, c: nat, e: Event)
    requires Sound(r) && Current(r.heap, r.vector, c) && r.heap[c].events == Mask(true, true)
    ensures Handle(Cancel(r, c, e, true).reg, c, Report(Mask(true, true), false), true).result.Asserted?
  {
    assert ContextOk(r.heap, r.vector, c);
    CancelIsSound(r, c, e, true);
    HandleIsSound(Cancel(r, c, e, true).reg, c, Report(Mask(true, true), false), true);
  }
}
