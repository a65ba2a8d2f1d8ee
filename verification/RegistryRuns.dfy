/** Every interleaving of the critical sections of the event registry. */
module RegistryRuns {
  import opened Ascii
  import opened EventRegistry

  datatype Call = Add(fd: nat, e: Event) | Cancelling(fd: nat, e: Event) | Closing(fd: nat)

  // Where a thread is: outside; past the look, about to resize; or about to lock a context that it holds.
  datatype Pc =
    | Outside
    | Growing(fd: nat, e: Event)
    | Adding(c: nat, e: Event)
    | Cancels(c: nat, e: Event)
    | Closes(c: nat)
    | Handles(c: nat, report: Report)
  {
    predicate Holds() { !Outside? && !Growing? }
  }

  datatype State = State(reg: Registry, pcs: seq<Pc>, aborted: bool)

  // Enter is a call's look at the vector, Wait takes a report out of epoll, Grow is the resize under the write lock,
  // and Lock the section under the lock of the context, in which the kernel accepts what it is asked or does not.
  datatype Act =
    | Enter(u: nat, call: Call)
    | Wait(u: nat, fd: nat, report: Report)
    | Grow(u: nat)
    | Lock(u: nat, ok: bool)

  function Init(threads: nat): State { State(Start(), seq(threads, i => Outside), false) }

  predicate PcFormed(pc: Pc, contexts: nat) {
    if pc.Growing? then pc.fd >= 32 else pc.Holds() ==> pc.c < contexts
  }

  ghost predicate Formed(s: State) {
    && |s.reg.vector| >= 32
    && (forall fd :: 0 <= fd < |s.reg.vector| ==> s.reg.vector[fd] < |s.reg.heap|)
    && (forall u :: 0 <= u < |s.pcs| ==> PcFormed(s.pcs[u], |s.reg.heap|))
  }

  predicate Enabled(s: State, a: Act) {
    && !s.aborted && a.u < |s.pcs|
    && match a
       case Enter(u, call) => s.pcs[u].Outside?
       case Wait(u, fd, report) =>
         s.pcs[u].Outside? && fd in s.reg.kernel && report.ready.Minus(s.reg.kernel[fd].mask).IsNone()
         && s.reg.kernel[fd].ctx < |s.reg.heap|
       case Grow(u) => s.pcs[u].Growing?
       case Lock(u, ok) => s.pcs[u].Holds()
  }

  // A call on a descriptor past the vector returns at once, unless it adds.
  function Entered(r: Registry, call: Call): Pc {
    match Look(r, call.fd)
    case None => if call.Add? then Growing(call.fd, call.e) else Outside
    case Some(c) =>
      match call
      case Add(_, e) => Adding(c, e)
      case Cancelling(_, e) => Cancels(c, e)
      case Closing(_) => Closes(c)
  }

  function Section(r: Registry, pc: Pc, ok: bool): Outcome
    requires pc.Holds() && pc.c < |r.heap|
  {
    match pc
    case Adding(c, e) => Register(r, c, e, ok)
    case Cancels(c, e) => Cancel(r, c, e, ok)
    case Closes(c) => CancelAll(r, c, ok)
    case Handles(c, report) => Handle(r, c, report, ok)
  }

  function Next(s: State, a: Act): State
    requires Formed(s) && Enabled(s, a)
  {
    match a
    case Enter(u, call) => s.(pcs := s.pcs[u := Entered(s.reg, call)])
    case Wait(u, fd, report) => s.(pcs := s.pcs[u := Handles(s.reg.kernel[fd].ctx, report)])
    case Grow(u) =>
      assert PcFormed(s.pcs[u], |s.reg.heap|);
      var r := Resized(s.reg, s.pcs[u].fd * 3 / 2);
      s.(reg := r, pcs := s.pcs[u := Adding(r.vector[s.pcs[u].fd], s.pcs[u].e)])
    case Lock(u, ok) =>
      assert PcFormed(s.pcs[u], |s.reg.heap|);
      var o := Section(s.reg, s.pcs[u], ok);
      State(o.reg, s.pcs[u := Outside], o.result.Asserted?)
  }

  // ---------------------------------------------------------------- what never changes

  // The vector, and which descriptor each context is for.
  ghost predicate SamePlaces(r: Registry, r': Registry) {
    && r'.vector == r.vector && |r'.heap| == |r.heap|
    && forall c :: 0 <= c < |r.heap| ==> r'.heap[c].fd == r.heap[c].fd
  }

  lemma {:induction false} TriggerAllPlaces(r: Registry, c: nat, mask: Mask)
    requires c < |r.heap|
    ensures SamePlaces(r, TriggerAll(r, c, mask))
  {
  }

  lemma {:induction false} SectionPlaces(r: Registry, pc: Pc, ok: bool)
    requires pc.Holds() && pc.c < |r.heap|
    ensures SamePlaces(r, Section(r, pc, ok).reg)
  {
    match pc
    case Adding(c, e) => {}
    case Cancels(c, e) => {}
    case Closes(c) => TriggerAllPlaces(Update(r, c, NONE, ok).reg, c, r.heap[c].events);
    case Handles(c, report) =>
      var came := Came(report, r.heap[c].events);
      TriggerAllPlaces(Update(r, c, r.heap[c].events.Minus(came), ok).reg, c, came);
  }

  lemma {:induction false} StepFormed(s: State, a: Act)
    requires Formed(s) && Enabled(s, a)
    ensures Formed(Next(s, a)) && |Next(s, a).pcs| == |s.pcs|
  {
    var s' := Next(s, a);
    assert PcFormed(s.pcs[a.u], |s.reg.heap|);
    if a.Lock? { SectionPlaces(s.reg, s.pcs[a.u], a.ok); }
    assert |s'.reg.heap| >= |s.reg.heap|;
    forall v | 0 <= v < |s'.pcs| ensures PcFormed(s'.pcs[v], |s'.reg.heap|) {
      assert PcFormed(s.pcs[v], |s.reg.heap|);
    }
  }

  // ---------------------------------------------------------------- safety

  // A thread about to register holds the context that the vector has.
  predicate AddsCurrent(r: Registry, pc: Pc) { pc.Adding? ==> Current(r.heap, r.vector, pc.c) }

  // Up to a failed assertion, the registry is sound.
  ghost predicate Safe(s: State) {
    Formed(s) && (s.aborted || (Sound(s.reg) && forall u :: 0 <= u < |s.pcs| ==> AddsCurrent(s.reg, s.pcs[u])))
  }

  // No descriptor that the resize cuts off has a waiter, and nobody is about to register on it.
  ghost predicate Harmless(s: State, u: nat)
    requires Formed(s) && u < |s.pcs| && s.pcs[u].Growing?
  {
    var size := s.pcs[u].fd * 3 / 2;
    && (forall c :: 0 <= c < |s.reg.heap| && s.reg.heap[c].fd >= size ==> s.reg.heap[c].events.IsNone())
    && (forall v :: 0 <= v < |s.pcs| && s.pcs[v].Adding? ==> HoldsBelow(s, v, size))
  }

  predicate HoldsBelow(s: State, v: nat, size: nat) {
    v < |s.pcs| && s.pcs[v].Holds() && s.pcs[v].c < |s.reg.heap| && s.reg.heap[s.pcs[v].c].fd < size
  }

  lemma {:induction false} SectionIsSound(r: Registry, pc: Pc, ok: bool)
    requires Sound(r) && pc.Holds() && pc.c < |r.heap| && AddsCurrent(r, pc)
    ensures var o := Section(r, pc, ok); !o.result.Asserted? ==> Sound(o.reg)
  {
    if Current(r.heap, r.vector, pc.c) {
      match pc
      case Adding(c, e) => RegisterIsSound(r, c, e, ok);
      case Cancels(c, e) => CancelIsSound(r, c, e, ok);
      case Closes(c) => CancelAllIsSound(r, c, ok);
      case Handles(c, report) => HandleIsSound(r, c, report, ok);
    } else {
      CutOffIsInert(r, pc.c, READ, if pc.Handles? then pc.report else Report(NONE, false), ok);
      CutOffIsInert(r, pc.c, WRITE, if pc.Handles? then pc.report else Report(NONE, false), ok);
    }
  }

  // Every step of every interleaving keeps this, a resize where it is harmless.
  lemma {:induction false} StepKeepsSafe(s: State, a: Act)
    requires Safe(s) && Enabled(s, a) && (a.Grow? ==> Harmless(s, a.u))
    ensures Safe(Next(s, a))
  {
    StepFormed(s, a);
    assert AddsCurrent(s.reg, s.pcs[a.u]) && PcFormed(s.pcs[a.u], |s.reg.heap|);
    match a
    case Enter(u, call) => OthersStayCurrent(s, a);
    case Wait(u, fd, report) => OthersStayCurrent(s, a);
    case Grow(u) => GrowKeepsSafe(s, u);
    case Lock(u, ok) =>
      SectionIsSound(s.reg, s.pcs[u], ok);
      SectionPlaces(s.reg, s.pcs[u], ok);
      OthersStayCurrent(s, a);
  }

  lemma {:induction false} OthersStayCurrent(s: State, a: Act)
    requires Safe(s) && Enabled(s, a) && !a.Grow? && SamePlaces(s.reg, Next(s, a).reg)
    ensures forall v :: 0 <= v < |Next(s, a).pcs| ==> AddsCurrent(Next(s, a).reg, Next(s, a).pcs[v])
  {
    var s' := Next(s, a);
    forall v | 0 <= v < |s'.pcs| ensures AddsCurrent(s'.reg, s'.pcs[v]) {
      assert AddsCurrent(s.reg, s.pcs[v]);
    }
  }

  lemma {:induction false} GrowKeepsSafe(s: State, u: nat)
    requires Safe(s) && Enabled(s, Grow(u)) && Harmless(s, u)
    ensures Safe(Next(s, Grow(u)))
  {
    var s' := Next(s, Grow(u));
    StepFormed(s, Grow(u));
    assert PcFormed(s.pcs[u], |s.reg.heap|);
    var size: nat := s.pcs[u].fd * 3 / 2;
    ResizeIsSoundIff(s.reg, size);
    forall v | 0 <= v < |s'.pcs| ensures AddsCurrent(s'.reg, s'.pcs[v]) {
      assert AddsCurrent(s.reg, s.pcs[v]);
      if v != u && s.pcs[v].Adding? { assert HoldsBelow(s, v, size); }
    }
  }

  // ---------------------------------------------------------------- runs

  ghost predicate Runs(s: State, acts: seq<Act>)
    requires Formed(s)
    decreases |acts|
  {
    acts != [] ==> Enabled(s, acts[0]) && (StepFormed(s, acts[0]); Runs(Next(s, acts[0]), acts[1..]))
  }

  ghost function End(s: State, acts: seq<Act>): State
    requires Formed(s) && Runs(s, acts)
    decreases |acts|
  {
    if acts == [] then s else (StepFormed(s, acts[0]); End(Next(s, acts[0]), acts[1..]))
  }

  // Every resize of the run is harmless where it happens.
  ghost predicate Careful(s: State, acts: seq<Act>)
    requires Formed(s) && Runs(s, acts)
    decreases |acts|
  {
    acts != [] ==>
      && (acts[0].Grow? ==> Harmless(s, acts[0].u))
      && (StepFormed(s, acts[0]); Careful(Next(s, acts[0]), acts[1..]))
  }

  lemma {:induction false} RunIsSafe(s: State, acts: seq<Act>)
    requires Safe(s) && Runs(s, acts) && Careful(s, acts)
    ensures Safe(End(s, acts))
    decreases |acts|
  {
    if acts != [] {
      StepKeepsSafe(s, acts[0]);
      RunIsSafe(Next(s, acts[0]), acts[1..]);
    }
  }

  lemma {:induction false} InitIsSafe(threads: nat)
    ensures Safe(Init(threads))
  {
    StartIsSound();
  }

  // A resize is harmless exactly when no continuation, in which later ones are, breaks the registry.
  lemma {:induction false} HarmlessIff(s: State, u: nat)
    requires Safe(s) && Enabled(s, Grow(u))
    ensures Formed(Next(s, Grow(u)))
    ensures Harmless(s, u) <==>
            forall acts :: Runs(Next(s, Grow(u)), acts) && Careful(Next(s, Grow(u)), acts) ==>
              Safe(End(Next(s, Grow(u)), acts))
  {
    var s' := Next(s, Grow(u));
    StepFormed(s, Grow(u));
    if Harmless(s, u) {
      StepKeepsSafe(s, Grow(u));
      forall acts | Runs(s', acts) && Careful(s', acts) ensures Safe(End(s', acts)) { RunIsSafe(s', acts); }
    } else {
      var acts := HarmShows(s, u);
    }
  }

  // The harm shows at once or with the registration of a thread that holds what was cut off.
  lemma {:induction false} HarmShows(s: State, u: nat) returns (acts: seq<Act>)
    requires Safe(s) && Enabled(s, Grow(u)) && !Harmless(s, u)
    ensures Formed(Next(s, Grow(u))) && Runs(Next(s, Grow(u)), acts) && Careful(Next(s, Grow(u)), acts)
    ensures |acts| <= 1 && !Safe(End(Next(s, Grow(u)), acts))
  {
    var s' := Next(s, Grow(u));
    StepFormed(s, Grow(u));
    assert PcFormed(s.pcs[u], |s.reg.heap|);
    var size: nat := s.pcs[u].fd * 3 / 2;
    ResizeIsSoundIff(s.reg, size);
    acts := [];
    if Sound(s'.reg) {
      var v :| 0 <= v < |s.pcs| && s.pcs[v].Adding? && !HoldsBelow(s, v, size);
      assert AddsCurrent(s.reg, s.pcs[v]);
      acts := [Lock(v, true)];
      LostRegistration(s', v);
    }
  }

  // A registration on a context that was cut off counts as pending and is watched, but the registry is not sound.
  lemma {:induction false} LostRegistration(s: State, v: nat)
    requires Formed(s) && !s.aborted && Sound(s.reg) && v < |s.pcs| && s.pcs[v].Adding?
    requires s.pcs[v].c < |s.reg.heap| && !Current(s.reg.heap, s.reg.vector, s.pcs[v].c)
    ensures var acts := [Lock(v, true)];
            && Runs(s, acts) && Careful(s, acts) && End(s, acts) == Next(s, acts[0])
            && !End(s, acts).aborted && !Sound(End(s, acts).reg)
  {
    var c, e := s.pcs[v].c, s.pcs[v].e;
    var s', acts := Next(s, Lock(v, true)), [Lock(v, true)];
    CutOffIsInert(s.reg, c, e, Report(NONE, false), true);
    assert ContextOk(s.reg.heap, s.reg.vector, c);
    StepFormed(s, Lock(v, true));
    assert acts[1..] == [];
    assert Runs(s', acts[1..]) && Careful(s', acts[1..]) && End(s', acts[1..]) == s';
  }

  // ---------------------------------------------------------------- when a resize is harmless

  // It is where the vector is still too short: then it gets longer.
  lemma {:induction false} InTurnIsHarmless(s: State, u: nat)
    requires Safe(s) && Enabled(s, Grow(u)) && |s.reg.vector| <= s.pcs[u].fd
    ensures Harmless(s, u)
  {
    assert PcFormed(s.pcs[u], |s.reg.heap|);
    var size: nat := s.pcs[u].fd * 3 / 2;
    forall c | 0 <= c < |s.reg.heap| && s.reg.heap[c].fd >= size ensures s.reg.heap[c].events.IsNone() {
      assert ContextOk(s.reg.heap, s.reg.vector, c);
    }
    forall v | 0 <= v < |s.pcs| && s.pcs[v].Adding? ensures HoldsBelow(s, v, size) {
      assert AddsCurrent(s.reg, s.pcs[v]);
    }
  }

  // At most one thread is past the look and before the resize, and the vector is as short as it saw it.
  ghost predicate OneGrows(s: State) {
    && (forall u, v :: 0 <= u < v < |s.pcs| ==> !s.pcs[u].Growing? || !s.pcs[v].Growing?)
    && (forall u :: 0 <= u < |s.pcs| && s.pcs[u].Growing? ==> |s.reg.vector| <= s.pcs[u].fd)
  }

  // A thread looks for a resize only when no other has one before it.
  ghost predicate OneByOne(s: State, acts: seq<Act>)
    requires Formed(s) && Runs(s, acts)
    decreases |acts|
  {
    acts != [] ==>
      && (acts[0].Enter? && Entered(s.reg, acts[0].call).Growing? ==> NoneGrows(s))
      && (StepFormed(s, acts[0]); OneByOne(Next(s, acts[0]), acts[1..]))
  }

  ghost predicate NoneGrows(s: State) { forall u :: 0 <= u < |s.pcs| ==> !s.pcs[u].Growing? }

  // Then nothing ever breaks the registry.
  lemma {:induction false} OneByOneIsSafe(s: State, acts: seq<Act>)
    requires Safe(s) && OneGrows(s) && Runs(s, acts) && OneByOne(s, acts)
    ensures Careful(s, acts) && Safe(End(s, acts))
    decreases |acts|
  {
    if acts != [] {
      if acts[0].Grow? { InTurnIsHarmless(s, acts[0].u); }
      StepKeepsSafe(s, acts[0]);
      OneStillGrows(s, acts[0]);
      OneByOneIsSafe(Next(s, acts[0]), acts[1..]);
    }
  }

  lemma {:induction false} OneStillGrows(s: State, a: Act)
    requires Formed(s) && Enabled(s, a) && OneGrows(s)
    requires a.Enter? && Entered(s.reg, a.call).Growing? ==> NoneGrows(s)
    ensures OneGrows(Next(s, a))
  {
    assert PcFormed(s.pcs[a.u], |s.reg.heap|);
    if a.Lock? { SectionPlaces(s.reg, s.pcs[a.u], a.ok); }
  }

  // From the start: a run in which every resize is harmless where it happens, as it is where one thread grows the
  // vector at a time, is safe.
  lemma {:induction false} RunsFromStart(threads: nat, acts: seq<Act>)
    requires (InitIsSafe(threads); Runs(Init(threads), acts))
    requires (InitIsSafe(threads); Careful(Init(threads), acts) || OneByOne(Init(threads), acts))
    ensures (InitIsSafe(threads); Careful(Init(threads), acts) && Safe(End(Init(threads), acts)))
  {
    InitIsSafe(threads);
    if OneByOne(Init(threads), acts) {
      OneByOneIsSafe(Init(threads), acts);
    } else {
      RunIsSafe(Init(threads), acts);
    }
  }

  // ---------------------------------------------------------------- what a sound registry is good for

  // Every waiter stands in a context that the vector has and that the kernel points at, so that readiness, a time-out
  // and a close all find it.
  lemma {:induction false} WaiterIsFound(r: Registry, t: nat) returns (fd: nat, c: nat)
    requires Sound(r) && t in Waiting(r.heap)
    ensures Look(r, fd) == Some(c) && c < |r.heap| && t in r.heap[c].Waiters()
    ensures fd in r.kernel && r.kernel[fd] == Watch(r.heap[c].events, c)
  {
    c := WaitsSomewhere(r.heap, t);
    fd := r.heap[c].fd;
    assert ContextOk(r.heap, r.vector, c) && WatchOk(r.heap, r.vector, r.kernel, fd);
  }

  lemma {:induction false} WaitsSomewhere(heap: seq<FdContext>, t: nat) returns (c: nat)
    requires t in Waiting(heap)
    ensures c < |heap| && t in heap[c].Waiters()
    decreases |heap|
  {
    var n := |heap| - 1;
    if t in heap[n].Waiters() { c := n; } else { c := WaitsSomewhere(heap[..n], t); }
  }

  // A step aborts exactly when it registers an event that has a waiter, or when it handles a report that the kernel has
  // taken off and that names an event with a waiter and one without.
  lemma {:induction false} AbortsIff(s: State, a: Act)
    requires Safe(s) && Enabled(s, a)
    ensures Next(s, a).aborted <==>
            && a.Lock? && s.pcs[a.u].c < |s.reg.heap|
            && var pc := s.pcs[a.u]; var ctx := s.reg.heap[pc.c];
            || (pc.Adding? && ctx.Waiter(pc.e).Some?)
            || (pc.Handles? && a.ok && !ctx.events.And(Came(pc.report, ctx.events)).IsNone()
                && !Came(pc.report, ctx.events).Minus(ctx.events).IsNone())
  {
    assert PcFormed(s.pcs[a.u], |s.reg.heap|) && AddsCurrent(s.reg, s.pcs[a.u]);
    if a.Lock? {
      var r, pc := s.reg, s.pcs[a.u];
      assert ContextOk(r.heap, r.vector, pc.c);
      if pc.Handles? && Current(r.heap, r.vector, pc.c) { HandleIsSound(r, pc.c, pc.report, a.ok); }
      if pc.Adding? { RegisterIs(r, pc.c, pc.e, a.ok); }
    }
  }

  // ---------------------------------------------------------------- runs that break it

  // `acts` leads from `s` to `s'`.
  ghost predicate Leads(s: State, acts: seq<Act>, s': State) {
    Formed(s) && Formed(s') && Runs(s, acts) && End(s, acts) == s'
  }

  lemma {:induction false} Stay(s: State)
    requires Formed(s)
    ensures Leads(s, [], s)
  {
  }

  lemma {:induction false} Before(s: State, a: Act, acts: seq<Act>, s': State)
    requires Formed(s) && Enabled(s, a) && Leads(Next(s, a), acts, s')
    ensures Leads(s, [a] + acts, s')
  {
    assert ([a] + acts)[1..] == acts;
  }

  function Looked(a: nat, b: nat, d: Event, e: Event): State { State(Start(), [Growing(a, d), Growing(b, e)], false) }

  function OneGrown(a: nat, b: nat, d: Event, e: Event): State {
    State(Resized(Start(), b * 3 / 2), [Growing(a, d), Adding(b, e)], false)
  }

  // Two threads look while the vector has its first 32 places.
  lemma {:induction false} BothLook(a: nat, b: nat, d: Event, e: Event, acts: seq<Act>, s: State)
    requires 32 <= a && 32 <= b && Leads(Looked(a, b, d, e), acts, s)
    ensures Leads(Init(2), [Enter(0, Add(a, d))] + ([Enter(1, Add(b, e))] + acts), s)
  {
    var s1 := Next(Init(2), Enter(0, Add(a, d)));
    assert s1 == State(Start(), [Growing(a, d), Outside], false);
    StepFormed(Init(2), Enter(0, Add(a, d)));
    assert Next(s1, Enter(1, Add(b, e))) == Looked(a, b, d, e);
    Before(s1, Enter(1, Add(b, e)), acts, s);
    Before(Init(2), Enter(0, Add(a, d)), [Enter(1, Add(b, e))] + acts, s);
  }

  predicate Place(r: Registry, c: nat) {
    c < |r.heap| && c < |r.vector| && r.heap[c] == NewContext(c) && r.vector[c] == c
  }

  // Nothing was registered, and no place was cut off.
  ghost predicate Untouched(r: Registry, n: nat) {
    && Sound(r) && |r.heap| == |r.vector| == n
    && r.kernel == map[] && r.pending == 0 && r.scheduled == [] && r.issued == 0
    && forall c :: 0 <= c < n ==> Place(r, c)
  }

  lemma {:induction false} StartIsUntouched()
    ensures Untouched(Start(), 32)
  {
    StartIsSound();
  }

  lemma {:induction false} GrownIsUntouched(r: Registry, n: nat, size: nat)
    requires Untouched(r, n) && n < size
    ensures Untouched(Resized(r, size), size)
  {
    LongerIsSound(r, size);
    var r' := Resized(r, size);
    forall c | 0 <= c < size ensures Place(r', c) {
      if c < n { assert Place(r, c); } else { assert r'.heap[c] == Fresh(n, size)[c - n]; }
    }
  }

  lemma {:induction false} LookedIsFormed(a: nat, b: nat, d: Event, e: Event)
    requires 32 <= a && 32 <= b
    ensures Formed(Looked(a, b, d, e)) && Enabled(Looked(a, b, d, e), Grow(1))
  {
    var s := Looked(a, b, d, e);
    StartIsSound();
    assert s.reg == Start() && PcFormed(s.pcs[0], |s.reg.heap|) && PcFormed(s.pcs[1], |s.reg.heap|);
  }

  lemma {:induction false} PlaceIsDescriptor(n: nat, b: nat)
    requires 32 < n && b < n
    ensures b < |Resized(Start(), n).vector| && Resized(Start(), n).vector[b] == b
  {
    StartIsUntouched();
    GrownIsUntouched(Start(), 32, n);
    assert Place(Resized(Start(), n), b);
  }

  // The one with the larger descriptor resizes first.
  lemma {:induction false} LargerGrows(a: nat, b: nat, d: Event, e: Event)
    requires 32 <= a && 32 <= b
    ensures Formed(Looked(a, b, d, e)) && Enabled(Looked(a, b, d, e), Grow(1))
    ensures Next(Looked(a, b, d, e), Grow(1)) == OneGrown(a, b, d, e)
  {
    LookedIsFormed(a, b, d, e);
    PlaceIsDescriptor(b * 3 / 2, b);
    var s := Looked(a, b, d, e);
    assert s.pcs[1] == Growing(b, e) && s.pcs[1 := Adding(b, e)] == [Growing(a, d), Adding(b, e)];
  }

  function Cut(m: nat, n: nat): Registry { Resized(Resized(Start(), n), m) }

  lemma {:induction false} CutPlaces(r: Registry, m: nat, n: nat, a: nat, b: nat)
    requires Untouched(r, n) && 32 <= a < m <= b < n
    ensures var r' := Resized(r, m);
            && Sound(r') && |r'.vector| == m && |r'.heap| == n && r'.vector[a] == a && r'.heap[b] == NewContext(b)
            && r'.kernel == map[] && r'.pending == 0 && r'.scheduled == []
  {
    forall c | 0 <= c < |r.heap| ensures r.heap[c] == NewContext(c) { assert Place(r, c); }
    NobodyCut(r, m);
    ResizedShorter(r, m);
    assert Place(r, a);
  }

  lemma {:induction false} CutIs(m: nat, n: nat, a: nat, b: nat)
    requires 32 <= a < m <= b < n
    ensures var r := Cut(m, n);
            && Sound(r) && |r.vector| == m && |r.heap| == n && r.vector[a] == a && r.heap[b] == NewContext(b)
            && r.kernel == map[] && r.pending == 0 && r.scheduled == []
  {
    StartIsUntouched();
    GrownIsUntouched(Start(), 32, n);
    CutPlaces(Resized(Start(), n), m, n, a, b);
  }

  lemma {:induction false} ResizedShorter(r: Registry, size: nat)
    requires size <= |r.vector|
    ensures Resized(r, size) == r.(vector := Resized(r, size).vector) && |Resized(r, size).vector| == size
    ensures forall fd :: 0 <= fd < size ==> Resized(r, size).vector[fd] == r.vector[fd]
  {
  }

  lemma {:induction false} NobodyCut(r: Registry, size: nat)
    requires Sound(r) && 32 <= size && forall c :: 0 <= c < |r.heap| ==> r.heap[c] == NewContext(c)
    ensures Sound(Resized(r, size))
  {
    ResizeIsSoundIff(r, size);
  }

  // The other resize then cuts the vector.
  lemma {:induction false} SmallerGrows(a: nat, b: nat, d: Event, e: Event)
    requires 32 <= a && a * 3 / 2 <= b
    ensures Formed(OneGrown(a, b, d, e)) && Enabled(OneGrown(a, b, d, e), Grow(0))
    ensures Next(OneGrown(a, b, d, e), Grow(0)) == BothGrown(a, b, d, e) && Formed(BothGrown(a, b, d, e))
  {
    LargerGrows(a, b, d, e);
    StepFormed(Looked(a, b, d, e), Grow(1));
    PlaceIsDescriptor(b * 3 / 2, b);
    var s := OneGrown(a, b, d, e);
    CutAt(a * 3 / 2, b * 3 / 2, a, b);
    assert s.pcs[0] == Growing(a, d) && s.pcs[0 := Adding(a, d)] == [Adding(a, d), Adding(b, e)];
    StepFormed(s, Grow(0));
  }

  lemma {:induction false} CutAt(m: nat, n: nat, a: nat, b: nat)
    requires 32 <= a < m <= b < n
    ensures a < |Cut(m, n).vector| && Cut(m, n).vector[a] == a
  {
    CutIs(m, n, a, b);
  }

  function BothGrown(a: nat, b: nat, d: Event, e: Event): State {
    State(Cut(a * 3 / 2, b * 3 / 2), [Adding(a, d), Adding(b, e)], false)
  }

  // And the registration is lost: it counts as pending and the kernel watches its descriptor, but a cancellation and a
  // close find nothing.
  lemma {:induction false} RegistersInVain(a: nat, b: nat, d: Event, e: Event) returns (s: State)
    requires 32 <= a && a * 3 / 2 <= b && Formed(BothGrown(a, b, d, e))
    ensures Leads(BothGrown(a, b, d, e), [Lock(1, true)], s) && Lost(s, 1, b)
  {
    var s0 := BothGrown(a, b, d, e);
    CutIs(a * 3 / 2, b * 3 / 2, a, b);
    LostRegistration(s0, 1);
    StepFormed(s0, Lock(1, true));
    s := Next(s0, Lock(1, true));
  }

  ghost predicate Lost(s: State, u: nat, fd: nat) {
    && !s.aborted && !Sound(s.reg) && u < |s.pcs| && s.pcs[u] == Outside
    && s.reg.pending == 1 && s.reg.scheduled == [] && fd in s.reg.kernel
    && (forall e :: Entered(s.reg, Cancelling(fd, e)) == Outside) && Entered(s.reg, Closing(fd)) == Outside
  }

  lemma {:induction false} ResizeLosesWaiter(a: nat, b: nat, d: Event, e: Event) returns (acts: seq<Act>, s: State)
    requires 32 <= a && a * 3 / 2 <= b
    ensures Leads(Init(2), acts, s) && Lost(s, 1, b)
  {
    var s0, s1, s2 := Looked(a, b, d, e), OneGrown(a, b, d, e), BothGrown(a, b, d, e);
    LargerGrows(a, b, d, e);
    SmallerGrows(a, b, d, e);
    s := RegistersInVain(a, b, d, e);
    Before(s1, Grow(0), [Lock(1, true)], s);
    Before(s0, Grow(1), [Grow(0)] + [Lock(1, true)], s);
    acts := [Grow(1)] + ([Grow(0)] + [Lock(1, true)]);
    BothLook(a, b, d, e, acts, s);
    acts := [Enter(0, Add(a, d))] + ([Enter(1, Add(b, e))] + acts);
  }

  // Adding to its descriptor again makes a new context and asks the kernel to add what it watches.
  lemma {:induction false} AddedTwice(s: State, u: nat, fd: nat, e: Event) returns (s': State)
    requires Formed(s) && Lost(s, u, fd) && fd >= 32
    ensures Leads(s, [Enter(u, Add(fd, e))] + ([Grow(u)] + [Lock(u, true)]), s') && s'.reg.misused
  {
    assert Entered(s.reg, Cancelling(fd, e)) == Outside;
    var s1 := Next(s, Enter(u, Add(fd, e)));
    StepFormed(s, Enter(u, Add(fd, e)));
    assert s1.pcs[u] == Growing(fd, e);
    var s2 := Next(s1, Grow(u));
    StepFormed(s1, Grow(u));
    NewPlace(s1.reg, fd, fd * 3 / 2);
    s' := Next(s2, Lock(u, true));
    StepFormed(s2, Lock(u, true));
    Stay(s');
    assert [Lock(u, true)] + [] == [Lock(u, true)];
    Before(s2, Lock(u, true), [], s');
    Before(s1, Grow(u), [Lock(u, true)], s');
    Before(s, Enter(u, Add(fd, e)), [Grow(u)] + [Lock(u, true)], s');
  }

  lemma {:induction false} NewPlace(r: Registry, fd: nat, size: nat)
    requires |r.vector| <= fd < size
    ensures var r' := Resized(r, size);
            && fd < |r'.vector| && r'.vector[fd] < |r'.heap| && r'.heap[r'.vector[fd]] == NewContext(fd)
            && r'.kernel == r.kernel
  {
    var n, m := |r.vector|, |r.heap|;
    assert Resized(r, size).heap[m + (fd - n)] == Fresh(n, size)[fd - n];
  }

  // A report of both events of a descriptor that a cancellation of one of them overtakes.
  lemma {:induction false} OvertakenRun(s: State, u: nat, v: nat, fd: nat, c: nat, e: Event) returns (s': State)
    requires Safe(s) && !s.aborted && u != v && u < |s.pcs| && v < |s.pcs| && s.pcs[u].Outside? && s.pcs[v].Outside?
    requires Look(s.reg, fd) == Some(c) && s.reg.heap[c].events == Mask(true, true)
    ensures Leads(s, [Wait(v, fd, Report(Mask(true, true), false))] +
                     ([Enter(u, Cancelling(fd, e))] + ([Lock(u, true)] + [Lock(v, true)])), s')
    ensures s'.aborted
  {
    var report := Report(Mask(true, true), false);
    assert WatchOk(s.reg.heap, s.reg.vector, s.reg.kernel, fd);
    var s1 := Next(s, Wait(v, fd, report));
    StepKeepsSafe(s, Wait(v, fd, report));
    var s2 := Next(s1, Enter(u, Cancelling(fd, e)));
    StepKeepsSafe(s1, Enter(u, Cancelling(fd, e)));
    s' := OvertakenEnds(s2, u, v, c, e);
    Before(s1, Enter(u, Cancelling(fd, e)), [Lock(u, true)] + [Lock(v, true)], s');
    Before(s, Wait(v, fd, report), [Enter(u, Cancelling(fd, e))] + ([Lock(u, true)] + [Lock(v, true)]), s');
  }

  lemma {:induction false} OvertakenEnds(s: State, u: nat, v: nat, c: nat, e: Event) returns (s': State)
    requires Safe(s) && !s.aborted && u != v && u < |s.pcs| && v < |s.pcs| && s.pcs[u] == Cancels(c, e)
    requires s.pcs[v] == Handles(c, Report(Mask(true, true), false))
    requires Current(s.reg.heap, s.reg.vector, c) && s.reg.heap[c].events == Mask(true, true)
    ensures Leads(s, [Lock(u, true)] + [Lock(v, true)], s') && s'.aborted
  {
    OvertakenSections(s.reg, c, e);
    var s1 := Next(s, Lock(u, true));
    StepFormed(s, Lock(u, true));
    s' := Next(s1, Lock(v, true));
    StepFormed(s1, Lock(v, true));
    Stay(s');
    assert [Lock(v, true)] + [] == [Lock(v, true)];
    Before(s1, Lock(v, true), [], s');
    Before(s, Lock(u, true), [Lock(v, true)], s');
  }

  lemma {:induction false} OvertakenSections(r: Registry, c: nat, e: Event)
    requires Sound(r) && Current(r.heap, r.vector, c) && r.heap[c].events == Mask(true, true)
    ensures var o := Cancel(r, c, e, true);
            && !o.result.Asserted? && c < |o.reg.heap|
            && Handle(o.reg, c, Report(Mask(true, true), false), true).result.Asserted?
  {
    OvertakenAsserts(r, c, e);
    CancelIsSound(r, c, e, true);
  }

  // Such a state comes about at once.
  lemma {:induction false} AddRuns(s: State, u: nat, fd: nat, c: nat, e: Event) returns (s1: State, s': State)
    requires Safe(s) && !s.aborted && u < |s.pcs| && s.pcs[u].Outside? && Look(s.reg, fd) == Some(c)
    requires s.reg.heap[c].Waiter(e).None?
    ensures Enabled(s, Enter(u, Add(fd, e))) && s1 == Next(s, Enter(u, Add(fd, e))) && Formed(s1)
    ensures Enabled(s1, Lock(u, true)) && s' == Next(s1, Lock(u, true))
    ensures Safe(s') && !s'.aborted && s'.pcs == s.pcs && s'.reg == Registered(s.reg, c, e)
  {
    s1 := Next(s, Enter(u, Add(fd, e)));
    StepKeepsSafe(s, Enter(u, Add(fd, e)));
    RegisterIs(s.reg, c, e, true);
    s' := Next(s1, Lock(u, true));
    StepKeepsSafe(s1, Lock(u, true));
    assert s'.pcs == s.pcs;
  }

  // So two threads bring the assertion down from the start, on any descriptor.
  lemma {:induction false} OvertakenFromStart(fd: nat, e: Event) returns (acts: seq<Act>, s: State)
    requires fd < 32
    ensures Leads(Init(2), acts, s) && s.aborted
  {
    InitIsSafe(2);
    StartIsUntouched();
    assert Place(Start(), fd);
    var s1, s2 := AddRuns(Init(2), 0, fd, fd, READ);
    var s3, s4 := AddRuns(s2, 0, fd, fd, WRITE);
    s := OvertakenRun(s4, 0, 1, fd, fd, e);
    acts := [Wait(1, fd, Report(Mask(true, true), false))] +
            ([Enter(0, Cancelling(fd, e))] + ([Lock(0, true)] + [Lock(1, true)]));
    Before(s3, Lock(0, true), acts, s);
    acts := [Lock(0, true)] + acts;
    Before(s2, Enter(0, Add(fd, WRITE)), acts, s);
    acts := [Enter(0, Add(fd, WRITE))] + acts;
    Before(s1, Lock(0, true), acts, s);
    acts := [Lock(0, true)] + acts;
    Before(Init(2), Enter(0, Add(fd, READ)), acts, s);
    acts := [Enter(0, Add(fd, READ))] + acts;
  }
}
