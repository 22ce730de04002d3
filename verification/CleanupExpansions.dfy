/** The three expansions of the cleanup macros: a C++ object with a destructor,
    a C variable with a cleanup attribute, and setjmp with a registration list.
    Each is proved to do what the cleanup stack does, with the order of its own
    restoring pop. */
module CleanupExpansions {
  import opened Cleanup
  import opened Options

  /** The calling thread, as far as the macros see it.  `registered` is the list
      behind __pthread_register_cancel, newest last. */
  class ThreadState {
    const request: Option<nat>
    var cancelType: CancelType
    var clock: nat
    var trace: seq<Event>
    var registered: seq<Entry>

    constructor (request: Option<nat>, cancelType: CancelType)
      ensures this.request == request && View([], false) == Thread(cancelType, 0, [], [], false) && registered == []
    {
      this.request, this.cancelType, clock, trace, registered := request, cancelType, 0, [], [];
    }

    ghost function View(stack: seq<Entry>, ended: bool): Thread
      reads this
    {
      Thread(cancelType, clock, stack, trace, ended)
    }

    /** A pending cancellation strikes an asynchronous thread anywhere. */
    method Interrupted() returns (struck: bool)
      ensures struck == Struck(request, clock, cancelType, false)
    {
      struck := request.Some? && clock >= request.value && cancelType == Asynchronous;
    }

    /** pthread_setcanceltype.  Making the type asynchronous lets a pending
        cancellation strike at once. */
    method SetCancelType(kind: CancelType) returns (before: CancelType, struck: bool)
      modifies this`cancelType
      ensures cancelType == kind && before == old(cancelType)
      ensures struck == Struck(request, clock, kind, false)
    {
      before := cancelType;
      cancelType := kind;
      struck := Interrupted();
    }

    method Call(h: Handler)
      modifies this`trace
      ensures trace == old(trace) + [Ran(h, cancelType)]
    {
      trace := trace + [Ran(h, cancelType)];
    }

    method Pass()
      modifies this`clock
      ensures clock == old(clock) + 1
    {
      clock := clock + 1;
    }

    /** One action of the thread, unless a cancellation strikes first. */
    method Perform(id: nat, point: bool) returns (struck: bool)
      modifies this`clock, this`trace
      ensures struck == Struck(request, old(clock), cancelType, point)
      ensures if struck then clock == old(clock) && trace == old(trace)
              else clock == old(clock) + 1 && trace == old(trace) + [Did(id, cancelType)]
    {
      struck := request.Some? && clock >= request.value && (point || cancelType == Asynchronous);
      if !struck {
        clock, trace := clock + 1, trace + [Did(id, cancelType)];
      }
    }

    /** A change of the cancellation type in the program itself. */
    method ChangeType(kind: CancelType) returns (struck: bool)
      modifies this`cancelType, this`clock
      ensures struck == (Struck(request, old(clock), old(cancelType), false)
                         || Struck(request, old(clock), kind, false))
      ensures cancelType == if Struck(request, old(clock), old(cancelType), false) then old(cancelType) else kind
      ensures clock == if struck then old(clock) else old(clock) + 1
    {
      struck := Interrupted();
      if !struck {
        var _, now := SetCancelType(kind);
        struck := now;
        if !struck {
          Pass();
        }
      }
    }
  }

  // ---- C++: __pthread_cleanup_class ------------------------------------------------

  class CleanupClass {
    const cancelRoutine: Handler
    var doIt: int
    var cancelType: CancelType

    constructor (h: Handler)
      ensures cancelRoutine == h && doIt == 1
    {
      cancelRoutine, doIt, cancelType := h, 1, Deferred;
    }

    method SetDoIt(newval: int)
      modifies this`doIt
      ensures doIt == newval
    {
      doIt := newval;
    }

    method Defer(thread: ThreadState)
      modifies this`cancelType, thread`cancelType
      ensures cancelType == old(thread.cancelType) && thread.cancelType == Deferred
    {
      var before, _ := thread.SetCancelType(Deferred);
      cancelType := before;
    }

    method Restore(thread: ThreadState) returns (struck: bool)
      modifies thread`cancelType
      ensures thread.cancelType == cancelType
      ensures struck == Struck(thread.request, thread.clock, cancelType, false)
    {
      var _, now := thread.SetCancelType(cancelType);
      struck := now;
    }

    /** The destructor, which C++ runs however the scope is left. */
    method Destroy(thread: ThreadState)
      modifies thread`trace
      ensures thread.trace == old(thread.trace) + if doIt != 0 then [Ran(cancelRoutine, thread.cancelType)] else []
    {
      if doIt != 0 {
        thread.Call(cancelRoutine);
      }
    }
  }

  /** A thread that ends without handlers leaves its trace as it is. */
  lemma EndWithout(t: Thread)
    requires t.stack == []
    ensures End(t) == t.(ended := true)
  {}

  /** The events of a block's handler. */
  function Own(h: Handler, kind: CancelType, runs: bool): seq<Event> {
    if runs then [Ran(h, kind)] else []
  }

  /** What a block makes of a thread with an empty cleanup stack, where the pop
      restores first, given what its body makes of it. */
  function BlockResult(request: Option<nat>, defer: bool, h: Handler, execute: int, t: Thread, r: Thread): Thread {
    var kind := if defer then t.kind else r.kind;
    if r.ended || Struck(request, r.clock, r.kind, false) then
      r.(ended := true, trace := r.trace + [Ran(h, r.kind)])
    else if Struck(request, r.clock, kind, false) then
      r.(kind := kind, ended := true, trace := r.trace + [Ran(h, kind)])
    else
      r.(kind := kind, clock := r.clock + 1, trace := r.trace + Own(h, kind, execute != 0))
  }

  lemma PopAlone(request: Option<nat>, defer: bool, h: Handler, execute: int, t: Thread, r: Thread)
    requires !r.ended && r.stack == []
    ensures Step(RestoreThenRemove, request, Pop(execute, defer), r.(stack := [Entry(h, t.kind)]))
            == BlockResult(request, defer, h, execute, t, r)
  {
    var e := Entry(h, t.kind);
    assert [e][..0] == [];
    assert RunAll([e], r.kind) == [Ran(h, r.kind)] && RunAll([e], t.kind) == [Ran(h, t.kind)];
  }

  lemma BlockOutcome(request: Option<nat>, defer: bool, h: Handler, body: Program, execute: int,
                     t: Thread, inside: Thread, r: Thread)
    requires !t.ended && t.stack == [] && !Struck(request, t.clock, t.kind, false)
    requires inside == t.(kind := Entered(defer, t.kind), clock := t.clock + 1)
    requires r == Exec(RestoreThenRemove, request, Flatten(body), inside) && r.stack == []
    ensures Exec(RestoreThenRemove, request, Flatten(Block(defer, h, body, execute)), t)
            == BlockResult(request, defer, h, execute, t, r)
  {
    var e := Entry(h, t.kind);
    ExecBlock(RestoreThenRemove, request, defer, h, body, execute, t);
    assert Step(RestoreThenRemove, request, Push(h, defer), t) == inside.(stack := [e] + []);
    hide Exec, Flatten, Step;
    StackBelowWaits(RestoreThenRemove, request, body, inside, [e]);
    if r.ended {
      assert RunAll([e], r.kind) == [Ran(h, r.kind)] + RunAll([e][..0], r.kind);
    } else {
      PopAlone(request, defer, h, execute, t, r);
    }
  }

  lemma BlockNotEntered(order: Order, request: Option<nat>, p: Program, t: Thread)
    requires p.Block? && !t.ended && Struck(request, t.clock, t.kind, false)
    ensures Exec(order, request, Flatten(p), t) == End(t)
  {
    ExecBlock(order, request, p.defer, p.handler, p.body, p.execute, t);
    EndedStays(order, request, Flatten(p.body), End(t));
  }

  method RunDestructor(thread: ThreadState, p: Program) returns (unwinding: bool)
    modifies thread`cancelType, thread`clock, thread`trace
    ensures thread.View([], unwinding)
            == Exec(RestoreThenRemove, thread.request, Flatten(p), old(thread.View([], false)))
    decreases p
  {
    ghost var t, request := thread.View([], false), thread.request;
    unwinding := false;
    match p
    case Skip =>
    case Then(a, b) =>
      ExecConcat(RestoreThenRemove, request, Flatten(a), Flatten(b), t);
      unwinding := RunDestructor(thread, a);
      if !unwinding {
        unwinding := RunDestructor(thread, b);
      }
    case Act(id, point) =>
      unwinding := thread.Perform(id, point);
      ExecOne(RestoreThenRemove, request, Do(id, point), t);
    case SetType(kind) =>
      unwinding := thread.ChangeType(kind);
      ExecOne(RestoreThenRemove, request, Set(kind), t);
    case Exit =>
      unwinding := true;
      ExecOne(RestoreThenRemove, request, Leave, t);
    case Block(defer, h, body, execute) =>
      unwinding := DestructorBlock(thread, p);
  }

  method DestructorBlock(thread: ThreadState, p: Program) returns (unwinding: bool)
    requires p.Block?
    modifies thread`cancelType, thread`clock, thread`trace
    ensures thread.View([], unwinding)
            == Exec(RestoreThenRemove, thread.request, Flatten(p), old(thread.View([], false)))
    decreases p, 0
  {
    hide Exec, Flatten;
    ghost var t, request := thread.View([], false), thread.request;
    unwinding := thread.Interrupted();
    if unwinding {
      BlockNotEntered(RestoreThenRemove, request, p, t);
      EndWithout(t);
      return;
    }
    var clframe := new CleanupClass(p.handler);
    if p.defer {
      clframe.Defer(thread);
    }
    thread.Pass();
    ghost var inside := thread.View([], false);
    unwinding := RunDestructor(thread, p.body);
    ghost var r := thread.View([], unwinding);
    if !unwinding {
      unwinding := thread.Interrupted();
      if !unwinding && p.defer {
        unwinding := clframe.Restore(thread);
      }
      if !unwinding {
        clframe.SetDoIt(p.execute);
        thread.Pass();
      }
    }
    clframe.Destroy(thread);
    BlockOutcome(request, p.defer, p.handler, p.body, p.execute, t, inside, r);
  }

  // ---- C: a variable with __attribute__ ((__cleanup__)) ----------------------------

  /** struct __pthread_cleanup_frame */
  datatype CleanupFrame = CleanupFrame(cancelRoutine: Handler, doIt: int, cancelType: CancelType)

  /** __pthread_cleanup_routine, which the compiler calls when the frame goes out of scope. */
  method CleanupRoutine(thread: ThreadState, frame: CleanupFrame)
    modifies thread`trace
    ensures thread.trace == old(thread.trace)
                            + if frame.doIt != 0 then [Ran(frame.cancelRoutine, thread.cancelType)] else []
  {
    if frame.doIt != 0 {
      thread.Call(frame.cancelRoutine);
    }
  }

  method RunAttribute(thread: ThreadState, p: Program) returns (unwinding: bool)
    modifies thread`cancelType, thread`clock, thread`trace
    ensures thread.View([], unwinding)
            == Exec(RestoreThenRemove, thread.request, Flatten(p), old(thread.View([], false)))
    decreases p
  {
    ghost var t, request := thread.View([], false), thread.request;
    unwinding := false;
    match p
    case Skip =>
    case Then(a, b) =>
      ExecConcat(RestoreThenRemove, request, Flatten(a), Flatten(b), t);
      unwinding := RunAttribute(thread, a);
      if !unwinding {
        unwinding := RunAttribute(thread, b);
      }
    case Act(id, point) =>
      unwinding := thread.Perform(id, point);
      ExecOne(RestoreThenRemove, request, Do(id, point), t);
    case SetType(kind) =>
      unwinding := thread.ChangeType(kind);
      ExecOne(RestoreThenRemove, request, Set(kind), t);
    case Exit =>
      unwinding := true;
      ExecOne(RestoreThenRemove, request, Leave, t);
    case Block(defer, h, body, execute) =>
      unwinding := AttributeBlock(thread, p);
  }

  method AttributeBlock(thread: ThreadState, p: Program) returns (unwinding: bool)
    requires p.Block?
    modifies thread`cancelType, thread`clock, thread`trace
    ensures thread.View([], unwinding)
            == Exec(RestoreThenRemove, thread.request, Flatten(p), old(thread.View([], false)))
    decreases p, 0
  {
    hide Exec, Flatten;
    ghost var t, request := thread.View([], false), thread.request;
    unwinding := thread.Interrupted();
    if unwinding {
      BlockNotEntered(RestoreThenRemove, request, p, t);
      EndWithout(t);
      return;
    }
    var clframe := CleanupFrame(p.handler, 1, Deferred);
    if p.defer {
      var before, _ := thread.SetCancelType(Deferred);
      clframe := clframe.(cancelType := before);
    }
    thread.Pass();
    ghost var inside := thread.View([], false);
    unwinding := RunAttribute(thread, p.body);
    ghost var r := thread.View([], unwinding);
    if !unwinding {
      unwinding := thread.Interrupted();
      if !unwinding && p.defer {
        var _, now := thread.SetCancelType(clframe.cancelType);
        unwinding := now;
      }
      if !unwinding {
        clframe := clframe.(doIt := p.execute);
        thread.Pass();
      }
    }
    CleanupRoutine(thread, clframe);
    BlockOutcome(request, p.defer, p.handler, p.body, p.execute, t, inside, r);
  }

  // ---- C without unwinding support: setjmp and a registration list ------------------

  /** Jump to the newest registered buffer; its code runs the handler and asks
      for the next buffer, until none is left. */
  method UnwindRegistered(thread: ThreadState)
    modifies thread`registered, thread`trace
    ensures thread.registered == []
    ensures thread.trace == old(thread.trace) + RunAll(old(thread.registered), thread.cancelType)
  {
    ghost var done := [];
    while thread.registered != []
      invariant thread.trace == old(thread.trace) + done
      invariant done + RunAll(thread.registered, thread.cancelType) == RunAll(old(thread.registered), thread.cancelType)
      decreases |thread.registered|
    {
      var top := thread.registered[|thread.registered| - 1];
      thread.registered := thread.registered[..|thread.registered| - 1];
      thread.Call(top.handler);
      done := done + [Ran(top.handler, thread.cancelType)];
    }
  }

  /** `ended` says that control has left for good through a longjmp: nothing
      after it is executed, and no enclosing block gets to its pop. */
  method RunSetjmp(thread: ThreadState, p: Program) returns (ended: bool)
    modifies thread`cancelType, thread`clock, thread`trace, thread`registered
    ensures thread.View(thread.registered, ended)
            == Exec(RemoveThenRestore, thread.request, Flatten(p), old(thread.View(thread.registered, false)))
    decreases p
  {
    ghost var t, request := thread.View(thread.registered, false), thread.request;
    ended := false;
    match p
    case Skip =>
    case Then(a, b) =>
      ExecConcat(RemoveThenRestore, request, Flatten(a), Flatten(b), t);
      ended := RunSetjmp(thread, a);
      if !ended {
        ended := RunSetjmp(thread, b);
      }
    case Act(id, point) =>
      ended := thread.Perform(id, point);
      if ended {
        UnwindRegistered(thread);
      }
      ExecOne(RemoveThenRestore, request, Do(id, point), t);
    case SetType(kind) =>
      ended := thread.ChangeType(kind);
      if ended {
        UnwindRegistered(thread);
      }
      ExecOne(RemoveThenRestore, request, Set(kind), t);
    case Exit =>
      ended := true;
      UnwindRegistered(thread);
      ExecOne(RemoveThenRestore, request, Leave, t);
    case Block(defer, h, body, execute) =>
      ended := SetjmpBlock(thread, p);
  }

  /** Leave a block: __pthread_unregister_cancel, with or without restoring the
      type, then the handler if asked for. */
  method SetjmpPop(thread: ThreadState, execute: int, restore: bool, h: Handler) returns (ended: bool)
    requires thread.registered != [] && thread.registered[|thread.registered| - 1].handler == h
    modifies thread`cancelType, thread`clock, thread`trace, thread`registered
    ensures thread.View(thread.registered, ended)
            == Step(RemoveThenRestore, thread.request, Pop(execute, restore),
                    old(thread.View(thread.registered, false)))
  {
    hide RunAll;
    ended := thread.Interrupted();
    if ended {
      UnwindRegistered(thread);
      return;
    }
    var cancelBuf := thread.registered[|thread.registered| - 1];
    thread.registered := thread.registered[..|thread.registered| - 1];
    if restore {
      var _, now := thread.SetCancelType(cancelBuf.saved);
      ended := now;
    }
    if ended {
      UnwindRegistered(thread);
    } else {
      thread.Pass();
      if execute != 0 {
        thread.Call(h);
      }
    }
  }

  method SetjmpBlock(thread: ThreadState, p: Program) returns (ended: bool)
    requires p.Block?
    modifies thread`cancelType, thread`clock, thread`trace, thread`registered
    ensures thread.View(thread.registered, ended)
            == Exec(RemoveThenRestore, thread.request, Flatten(p), old(thread.View(thread.registered, false)))
    decreases p, 0
  {
    hide Exec, Flatten, RunAll;
    ghost var t, request := thread.View(thread.registered, false), thread.request;
    ended := thread.Interrupted();
    if ended {
      UnwindRegistered(thread);
      BlockNotEntered(RemoveThenRestore, request, p, t);
      return;
    }
    ExecBlock(RemoveThenRestore, request, p.defer, p.handler, p.body, p.execute, t);
    thread.registered := thread.registered + [Entry(p.handler, thread.cancelType)];
    if p.defer {
      var _, _ := thread.SetCancelType(Deferred);
    }
    thread.Pass();
    ghost var pushed := thread.View(thread.registered, false);
    assert pushed == Step(RemoveThenRestore, request, Push(p.handler, p.defer), t);
    hide Step;
    ended := RunSetjmp(thread, p.body);
    if !ended {
      NormalExit(RemoveThenRestore, request, p.body, pushed);
      ended := SetjmpPop(thread, p.execute, p.defer, p.handler);
    }
  }

  // ---- the expansions side by side -----------------------------------------------

  datatype Outcome = Outcome(ended: bool, trace: seq<Event>, after: CancelType)

  /** The destructor and the attribute expansions always do the same.  The setjmp
      expansion leaves the same trace exactly if no deferring block pops back to
      the asynchronous type with the cancellation already pending. */
  method RunAllThree(request: Option<nat>, kind: CancelType, p: Program)
    returns (destructor: Outcome, attribute: Outcome, setjmp: Outcome)
    ensures destructor == attribute
    ensures var strikes := StrikesAtRestore(request, Flatten(p), Thread(kind, 0, [], [], false));
            && (destructor == setjmp <==> !strikes)
            && (destructor.trace == setjmp.trace <==> !strikes)
    ensures var r := Exec(RestoreThenRemove, request, Flatten(p), Thread(kind, 0, [], [], false));
            destructor == Outcome(r.ended, r.trace, r.kind)
    ensures var r := Exec(RemoveThenRestore, request, Flatten(p), Thread(kind, 0, [], [], false));
            setjmp == Outcome(r.ended, r.trace, r.kind)
  {
    hide Exec, Flatten, StrikesAtRestore;
    var x := new ThreadState(request, kind);
    var y := new ThreadState(request, kind);
    var z := new ThreadState(request, kind);
    var ended := RunDestructor(x, p);
    destructor := Outcome(ended, x.trace, x.cancelType);
    ended := RunAttribute(y, p);
    attribute := Outcome(ended, y.trace, y.cancelType);
    ended := RunSetjmp(z, p);
    setjmp := Outcome(ended, z.trace, z.cancelType);
    OrdersAgreeExactly(request, Flatten(p), Thread(kind, 0, [], [], false));
  }
}
