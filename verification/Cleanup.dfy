/** Thread cancellation cleanup blocks: the cleanup stack of section 2.9.5.3 of
    the System Interfaces volume of IEEE Std 1003.1-2008, and what it does to
    well-nested programs. */
module Cleanup {
  import opened Options

  datatype CancelType = Deferred | Asynchronous

  /** A cleanup routine with its argument. */
  datatype Handler = Handler(routine: nat, arg: nat)

  /** What one thread executes, loops and branches unrolled: push and pop come
      in pairs at the same nesting level. */
  datatype Program =
    | Skip
    | Then(first: Program, second: Program)
    | Act(id: nat, point: bool)
    | SetType(kind: CancelType)
    | Exit
    | Block(defer: bool, handler: Handler, body: Program, execute: int)

  /** An action or a handler, with the cancellation type in force. */
  datatype Event = Did(id: nat, kind: CancelType) | Ran(handler: Handler, kind: CancelType)

  predicate Pending(request: Option<nat>, clock: nat) {
    request.Some? && clock >= request.value
  }

  /** A pending cancellation is acted upon at a cancellation point, or anywhere
      if the cancellation type is asynchronous. */
  predicate Struck(request: Option<nat>, clock: nat, kind: CancelType, point: bool) {
    Pending(request, clock) && (point || kind == Asynchronous)
  }

  // ---- the cleanup stack, on flat code --------------------------------------------

  datatype Instr =
    | Do(id: nat, point: bool)
    | Set(kind: CancelType)
    | Leave
    | Push(handler: Handler, defer: bool)
    | Pop(execute: int, restore: bool)

  function Flatten(p: Program): seq<Instr> {
    match p
    case Skip => []
    case Then(a, b) => Flatten(a) + Flatten(b)
    case Act(id, point) => [Do(id, point)]
    case SetType(kind) => [Set(kind)]
    case Exit => [Leave]
    case Block(defer, h, body, execute) => [Push(h, defer)] + Flatten(body) + [Pop(execute, defer)]
  }

  datatype Entry = Entry(handler: Handler, saved: CancelType)

  datatype Thread = Thread(kind: CancelType, clock: nat, stack: seq<Entry>, trace: seq<Event>, ended: bool)

  /** A pop that restores the cancellation type does two things, in one order or
      the other: the expansions of the macros differ in it. */
  datatype Order = RestoreThenRemove | RemoveThenRestore

  /** Pop and execute every handler, newest first. */
  function RunAll(stack: seq<Entry>, kind: CancelType): seq<Event> {
    if stack == [] then []
    else [Ran(stack[|stack| - 1].handler, kind)] + RunAll(stack[..|stack| - 1], kind)
  }

  function End(t: Thread): Thread {
    t.(stack := [], trace := t.trace + RunAll(t.stack, t.kind), ended := true)
  }

  /** Restoring the type makes it asynchronous while a cancellation is pending. */
  predicate StruckAtRestore(request: Option<nat>, i: Instr, t: Thread) {
    && i.Pop? && i.restore && t.stack != []
    && Pending(request, t.clock) && t.kind == Deferred && t.stack[|t.stack| - 1].saved == Asynchronous
  }

  function PopStep(order: Order, request: Option<nat>, execute: int, restore: bool, t: Thread): Thread
    requires t.stack != []
  {
    var top, rest := t.stack[|t.stack| - 1], t.stack[..|t.stack| - 1];
    var kind := if restore then top.saved else t.kind;
    if StruckAtRestore(request, Pop(execute, restore), t) then
      End(t.(kind := kind, stack := if order == RestoreThenRemove then t.stack else rest))
    else
      t.(stack := rest, kind := kind, clock := t.clock + 1,
         trace := t.trace + if execute != 0 then [Ran(top.handler, kind)] else [])
  }

  /** One instruction.  A pending cancellation strikes before it, or, where the
      instruction makes the type asynchronous, as soon as it does. */
  function Step(order: Order, request: Option<nat>, i: Instr, t: Thread): Thread {
    if Struck(request, t.clock, t.kind, i.Do? && i.point) then End(t)
    else
      match i
      case Do(id, _) => t.(clock := t.clock + 1, trace := t.trace + [Did(id, t.kind)])
      case Set(kind) =>
        if Struck(request, t.clock, kind, false) then End(t.(kind := kind))
        else t.(kind := kind, clock := t.clock + 1)
      case Leave => End(t)
      case Push(h, defer) =>
        t.(stack := t.stack + [Entry(h, t.kind)], kind := if defer then Deferred else t.kind, clock := t.clock + 1)
      case Pop(execute, restore) =>
        if t.stack == [] then t else PopStep(order, request, execute, restore, t)
  }

  function Exec(order: Order, request: Option<nat>, code: seq<Instr>, t: Thread): Thread
    decreases |code|
  {
    if code == [] || t.ended then t
    else Exec(order, request, code[1..], Step(order, request, code[0], t))
  }

  lemma {:induction false} ExecConcat(order: Order, request: Option<nat>, a: seq<Instr>, b: seq<Instr>, t: Thread)
    ensures Exec(order, request, a + b, t) == Exec(order, request, b, Exec(order, request, a, t))
    decreases |a|
  {
    if a == [] {
      assert a + b == b;
    } else if !t.ended {
      assert (a + b)[1..] == a[1..] + b;
      ExecConcat(order, request, a[1..], b, Step(order, request, a[0], t));
    }
  }

  lemma ExecOne(order: Order, request: Option<nat>, i: Instr, t: Thread)
    requires !t.ended
    ensures Exec(order, request, [i], t) == Step(order, request, i, t)
  {
    assert [i][1..] == [];
  }

  /** A block is a push, its body and a pop, each unless the thread has ended. */
  lemma ExecBlock(order: Order, request: Option<nat>, defer: bool, h: Handler, body: Program, execute: int, t: Thread)
    requires !t.ended
    ensures var inner := Exec(order, request, Flatten(body), Step(order, request, Push(h, defer), t));
            Exec(order, request, Flatten(Block(defer, h, body, execute)), t)
            == if inner.ended then inner else Step(order, request, Pop(execute, defer), inner)
  {
    hide Step, RunAll;
    var push, pop := [Push(h, defer)], [Pop(execute, defer)];
    ExecConcat(order, request, push + Flatten(body), pop, t);
    ExecConcat(order, request, push, Flatten(body), t);
    ExecOne(order, request, push[0], t);
    var inner := Exec(order, request, Flatten(body), Step(order, request, push[0], t));
    if !inner.ended {
      ExecOne(order, request, pop[0], inner);
    }
  }

  // ---- what happens on a normal exit ---------------------------------------------

  function TypeAfter(p: Program, kind: CancelType): CancelType {
    match p
    case Then(a, b) => TypeAfter(b, TypeAfter(a, kind))
    case SetType(k) => k
    case Block(defer, _, body, _) => if defer then kind else TypeAfter(body, kind)
    case _ => kind
  }

  function Entered(defer: bool, kind: CancelType): CancelType {
    if defer then Deferred else kind
  }

  /** The events of an undisturbed run: a handler runs iff execute is non-zero,
      after the cancellation type has been restored. */
  function Normal(p: Program, kind: CancelType): seq<Event> {
    match p
    case Then(a, b) => Normal(a, kind) + Normal(b, TypeAfter(a, kind))
    case Act(id, _) => [Did(id, kind)]
    case Block(defer, h, body, execute) =>
      Normal(body, Entered(defer, kind)) + if execute != 0 then [Ran(h, TypeAfter(p, kind))] else []
    case _ => []
  }

  /** r is what p makes of t when nothing cuts it short. */
  predicate ExitsNormally(p: Program, t: Thread, r: Thread) {
    && !r.ended && r.stack == t.stack
    && r.clock == t.clock + |Flatten(p)|
    && r.kind == TypeAfter(p, t.kind)
    && r.trace == t.trace + Normal(p, t.kind)
  }

  lemma NormalThen(a: Program, b: Program, t: Thread, mid: Thread, r: Thread)
    requires ExitsNormally(a, t, mid) && ExitsNormally(b, mid, r)
    ensures ExitsNormally(Then(a, b), t, r)
  {
    var x, y := Normal(a, t.kind), Normal(b, mid.kind);
    assert t.trace + x + y == t.trace + (x + y);
  }

  lemma FlattenBlock(defer: bool, h: Handler, body: Program, execute: int)
    ensures |Flatten(Block(defer, h, body, execute))| == |Flatten(body)| + 2
  {}

  /** What a push does to a thread that it does not end. */
  lemma PushNormal(order: Order, request: Option<nat>, h: Handler, defer: bool, t: Thread)
    requires !t.ended && !Step(order, request, Push(h, defer), t).ended
    ensures Step(order, request, Push(h, defer), t)
            == t.(stack := t.stack + [Entry(h, t.kind)], kind := Entered(defer, t.kind), clock := t.clock + 1)
  {}

  /** What a pop does to a thread that it does not end. */
  lemma PopNormal(order: Order, request: Option<nat>, execute: int, restore: bool, t: Thread,
                  below: seq<Entry>, e: Entry)
    requires !t.ended && t.stack == below + [e] && !Step(order, request, Pop(execute, restore), t).ended
    ensures var kind := if restore then e.saved else t.kind;
            Step(order, request, Pop(execute, restore), t)
            == t.(stack := below, kind := kind, clock := t.clock + 1,
                  trace := t.trace + if execute != 0 then [Ran(e.handler, kind)] else [])
  {
    assert t.stack[..|below|] == below;
  }

  lemma NormalBlock(order: Order, request: Option<nat>, defer: bool, h: Handler, body: Program, execute: int,
                    t: Thread, inner: Thread)
    requires !t.ended && !Step(order, request, Push(h, defer), t).ended
    requires ExitsNormally(body, Step(order, request, Push(h, defer), t), inner)
    requires !Step(order, request, Pop(execute, defer), inner).ended
    ensures ExitsNormally(Block(defer, h, body, execute), t, Step(order, request, Pop(execute, defer), inner))
  {
    hide Step, Flatten;
    FlattenBlock(defer, h, body, execute);
    PushNormal(order, request, h, defer, t);
    PopNormal(order, request, execute, defer, inner, t.stack, Entry(h, t.kind));
    var x := Normal(body, Entered(defer, t.kind));
    var y := Normal(Block(defer, h, body, execute), t.kind)[|x|..];
    assert t.trace + x + y == t.trace + (x + y);
  }

  lemma EndedStays(order: Order, request: Option<nat>, code: seq<Instr>, t: Thread)
    requires t.ended
    ensures Exec(order, request, code, t) == t
  {}

  /** A program that is not cut short leaves the cleanup stack and, around every
      deferring block, the cancellation type as it found them. */
  lemma {:induction false} NormalExit(order: Order, request: Option<nat>, p: Program, t: Thread)
    requires !t.ended && !Exec(order, request, Flatten(p), t).ended
    ensures ExitsNormally(p, t, Exec(order, request, Flatten(p), t))
  {
    hide RunAll;
    match p
    case Skip =>
    case Then(a, b) =>
      hide ExitsNormally;
      ExecConcat(order, request, Flatten(a), Flatten(b), t);
      var mid := Exec(order, request, Flatten(a), t);
      NormalExit(order, request, a, t);
      NormalExit(order, request, b, mid);
      NormalThen(a, b, t, mid, Exec(order, request, Flatten(b), mid));
    case Act(id, point) => ExecOne(order, request, Do(id, point), t);
    case SetType(kind) => ExecOne(order, request, Set(kind), t);
    case Exit => ExecOne(order, request, Leave, t);
    case Block(defer, h, body, execute) =>
      hide ExitsNormally, Step;
      ExecBlock(order, request, defer, h, body, execute, t);
      var pushed := Step(order, request, Push(h, defer), t);
      NormalExit(order, request, body, pushed);
      NormalBlock(order, request, defer, h, body, execute, t, Exec(order, request, Flatten(body), pushed));
  }

  // ---- what happens on cancellation -----------------------------------------------

  /** The handlers of the blocks around instruction k of p, outermost first.  A
      block's push is outside of it and its pop inside. */
  function Enclosing(p: Program, k: nat): seq<Handler>
    requires k < |Flatten(p)|
  {
    match p
    case Then(a, b) => if k < |Flatten(a)| then Enclosing(a, k) else Enclosing(b, k - |Flatten(a)|)
    case Block(_, h, body, _) =>
      if k == 0 then [] else if k <= |Flatten(body)| then [h] + Enclosing(body, k - 1) else [h]
    case _ => []
  }

  function Handlers(stack: seq<Entry>): seq<Handler> {
    seq(|stack|, i requires 0 <= i < |stack| => stack[i].handler)
  }

  lemma HandlersPlus(stack: seq<Entry>, e: Entry)
    ensures Handlers(stack + [e]) == Handlers(stack) + [e.handler]
  {}

  /** Run handlers, the last one first. */
  function RunHandlers(hs: seq<Handler>, kind: CancelType): seq<Event> {
    if hs == [] then [] else [Ran(hs[|hs| - 1], kind)] + RunHandlers(hs[..|hs| - 1], kind)
  }

  lemma {:induction false} RunAllIsRunHandlers(stack: seq<Entry>, kind: CancelType)
    ensures RunAll(stack, kind) == RunHandlers(Handlers(stack), kind)
  {
    if stack != [] {
      RunAllIsRunHandlers(stack[..|stack| - 1], kind);
      assert Handlers(stack[..|stack| - 1]) == Handlers(stack)[..|stack| - 1];
    }
  }

  /** t, executing p, gets to instruction k with exactly the handlers around it
      on top of its cleanup stack, and ends there. */
  predicate EndsAt(order: Order, request: Option<nat>, p: Program, t: Thread, k: nat)
    requires k < |Flatten(p)|
  {
    var pre := Exec(order, request, Flatten(p)[..k], t);
    && !pre.ended
    && Handlers(pre.stack) == Handlers(t.stack) + Enclosing(p, k)
    && Exec(order, request, Flatten(p), t) == Step(order, request, Flatten(p)[k], pre)
  }

  lemma EndsHere(order: Order, request: Option<nat>, p: Program, t: Thread)
    requires p.Act? || p.Exit? || p.SetType?
    requires !t.ended
    ensures EndsAt(order, request, p, t, 0)
  {
    ExecOne(order, request, Flatten(p)[0], t);
    assert Flatten(p)[..0] == [];
    assert Handlers(t.stack) + [] == Handlers(t.stack);
  }

  lemma EndsInFirst(order: Order, request: Option<nat>, a: Program, b: Program, t: Thread, k: nat)
    requires k < |Flatten(a)| && EndsAt(order, request, a, t, k) && Exec(order, request, Flatten(a), t).ended
    ensures k < |Flatten(Then(a, b))| && EndsAt(order, request, Then(a, b), t, k)
  {
    hide Step, Handlers;
    var x, y := Flatten(a), Flatten(b);
    ExecConcat(order, request, x, y, t);
    EndedStays(order, request, y, Exec(order, request, x, t));
    assert (x + y)[..k] == x[..k];
  }

  lemma EndsInSecond(order: Order, request: Option<nat>, a: Program, b: Program, t: Thread, k: nat)
    requires !t.ended && !Exec(order, request, Flatten(a), t).ended
    requires k < |Flatten(b)| && EndsAt(order, request, b, Exec(order, request, Flatten(a), t), k)
    ensures |Flatten(a)| + k < |Flatten(Then(a, b))| && EndsAt(order, request, Then(a, b), t, |Flatten(a)| + k)
  {
    hide Step, Handlers, Exec, Normal, TypeAfter;
    var x, y := Flatten(a), Flatten(b);
    assert Exec(order, request, x, t).stack == t.stack by {
      NormalExit(order, request, a, t);
    }
    ExecConcat(order, request, x, y, t);
    ExecConcat(order, request, x, y[..k], t);
    assert (x + y)[..|x| + k] == x + y[..k] && (x + y)[|x| + k] == y[k];
  }

  lemma EndsAtPush(order: Order, request: Option<nat>, p: Program, t: Thread)
    requires !t.ended && p.Block? && Step(order, request, Push(p.handler, p.defer), t).ended
    ensures |Flatten(p)| > 0 && EndsAt(order, request, p, t, 0)
  {
    hide Handlers, RunAll;
    var pushed := Step(order, request, Push(p.handler, p.defer), t);
    ExecBlock(order, request, p.defer, p.handler, p.body, p.execute, t);
    EndedStays(order, request, Flatten(p.body), pushed);
    assert Flatten(p)[..0] == [] && Flatten(p)[0] == Push(p.handler, p.defer);
    assert Handlers(t.stack) + [] == Handlers(t.stack);
  }

  /** The code of a block up to its k-th instruction after the push. */
  lemma BlockPrefix(order: Order, request: Option<nat>, p: Program, t: Thread, k: nat)
    requires !t.ended && p.Block? && k <= |Flatten(p.body)|
    ensures Exec(order, request, Flatten(p)[..k + 1], t)
            == Exec(order, request, Flatten(p.body)[..k], Step(order, request, Push(p.handler, p.defer), t))
  {
    hide Step;
    var push, x := [Push(p.handler, p.defer)], Flatten(p.body);
    assert Flatten(p)[..k + 1] == push + x[..k];
    ExecConcat(order, request, push, x[..k], t);
    ExecOne(order, request, push[0], t);
  }

  lemma PushHandlers(order: Order, request: Option<nat>, h: Handler, defer: bool, t: Thread)
    requires !Step(order, request, Push(h, defer), t).ended
    ensures Handlers(Step(order, request, Push(h, defer), t).stack) == Handlers(t.stack) + [h]
  {
    HandlersPlus(t.stack, Entry(h, t.kind));
  }

  lemma EndsInBody(order: Order, request: Option<nat>, p: Program, t: Thread, k: nat)
    requires !t.ended && p.Block? && !Step(order, request, Push(p.handler, p.defer), t).ended
    requires k < |Flatten(p.body)|
    requires EndsAt(order, request, p.body, Step(order, request, Push(p.handler, p.defer), t), k)
    requires Exec(order, request, Flatten(p.body), Step(order, request, Push(p.handler, p.defer), t)).ended
    ensures k + 1 < |Flatten(p)| && EndsAt(order, request, p, t, k + 1)
  {
    hide Step, Handlers, Exec;
    ExecBlock(order, request, p.defer, p.handler, p.body, p.execute, t);
    BlockPrefix(order, request, p, t, k);
    PushHandlers(order, request, p.handler, p.defer, t);
    assert Flatten(p)[k + 1] == Flatten(p.body)[k];
    var hs := Handlers(t.stack);
    assert hs + [p.handler] + Enclosing(p.body, k) == hs + ([p.handler] + Enclosing(p.body, k));
  }

  lemma EndsAtPop(order: Order, request: Option<nat>, p: Program, t: Thread)
    requires !t.ended && p.Block? && !Step(order, request, Push(p.handler, p.defer), t).ended
    requires !Exec(order, request, Flatten(p.body), Step(order, request, Push(p.handler, p.defer), t)).ended
    ensures |Flatten(p.body)| + 1 < |Flatten(p)| && EndsAt(order, request, p, t, |Flatten(p.body)| + 1)
  {
    hide Step, Handlers, Exec;
    var n, pushed := |Flatten(p.body)|, Step(order, request, Push(p.handler, p.defer), t);
    ExecBlock(order, request, p.defer, p.handler, p.body, p.execute, t);
    BlockPrefix(order, request, p, t, n);
    assert Flatten(p.body)[..n] == Flatten(p.body);
    PushHandlers(order, request, p.handler, p.defer, t);
    NormalExit(order, request, p.body, pushed);
    assert Flatten(p)[n + 1] == Pop(p.execute, p.defer);
  }

  lemma NothingToDo(order: Order, request: Option<nat>, t: Thread)
    ensures Exec(order, request, [], t) == t
  {}

  /** A thread that does not get to the end of p ends at some instruction of p. */
  lemma {:induction false} EndsAtSite(order: Order, request: Option<nat>, p: Program, t: Thread) returns (k: nat)
    requires !t.ended && Exec(order, request, Flatten(p), t).ended
    ensures k < |Flatten(p)| && EndsAt(order, request, p, t, k)
  {
    hide EndsAt, RunAll, Handlers, Step, Exec;
    match p
    case Then(a, b) =>
      ExecConcat(order, request, Flatten(a), Flatten(b), t);
      if Exec(order, request, Flatten(a), t).ended {
        k := EndsAtSite(order, request, a, t);
        EndsInFirst(order, request, a, b, t, k);
      } else {
        k := EndsAtSite(order, request, b, Exec(order, request, Flatten(a), t));
        EndsInSecond(order, request, a, b, t, k);
        k := |Flatten(a)| + k;
      }
    case Block(defer, h, body, execute) =>
      ExecBlock(order, request, defer, h, body, execute, t);
      var pushed := Step(order, request, Push(h, defer), t);
      if pushed.ended {
        k := 0;
        EndsAtPush(order, request, p, t);
      } else if Exec(order, request, Flatten(body), pushed).ended {
        k := EndsAtSite(order, request, body, pushed);
        EndsInBody(order, request, p, t, k);
        k := k + 1;
      } else {
        k := |Flatten(body)| + 1;
        EndsAtPop(order, request, p, t);
      }
    case Skip => NothingToDo(order, request, t);
    case _ =>
      k := 0;
      EndsHere(order, request, p, t);
  }

  /** The handlers that run if the thread ends at instruction k: those of the
      enclosing blocks, except that a pop struck at its restore has dropped its
      own handler already if it removes before it restores. */
  function Active(order: Order, p: Program, k: nat, atRestore: bool): (hs: seq<Handler>)
    requires k < |Flatten(p)|
  {
    var hs := Enclosing(p, k);
    if atRestore && order == RemoveThenRestore && hs != [] then hs[..|hs| - 1] else hs
  }

  lemma StepEnds(order: Order, request: Option<nat>, i: Instr, t: Thread)
    requires !t.ended && Step(order, request, i, t).ended
    ensures var r, hs := Step(order, request, i, t), Handlers(t.stack);
            r.trace == t.trace
                       + RunHandlers(if StruckAtRestore(request, i, t) && order == RemoveThenRestore && hs != []
                                     then hs[..|hs| - 1] else hs, r.kind)
  {
    var r := Step(order, request, i, t);
    RunAllIsRunHandlers(t.stack, r.kind);
    if t.stack != [] {
      var rest := t.stack[..|t.stack| - 1];
      RunAllIsRunHandlers(rest, r.kind);
      assert Handlers(rest) == Handlers(t.stack)[..|rest|];
    }
  }

  /** On cancellation or pthread_exit, at any instruction of any nesting, exactly
      the handlers of the enclosing blocks run, once each, innermost first; for
      a pop that is struck as it restores the type, whether its own handler is
      among them depends on the order of the expansion. */
  lemma CancellationRunsEnclosing(order: Order, request: Option<nat>, p: Program, t: Thread) returns (k: nat)
    requires !t.ended && t.stack == [] && Exec(order, request, Flatten(p), t).ended
    ensures k < |Flatten(p)| && !Exec(order, request, Flatten(p)[..k], t).ended
    ensures var pre, r := Exec(order, request, Flatten(p)[..k], t), Exec(order, request, Flatten(p), t);
            r.trace == pre.trace
                       + RunHandlers(Active(order, p, k, StruckAtRestore(request, Flatten(p)[k], pre)), r.kind)
  {
    hide Step, Exec, Flatten, Enclosing, RunHandlers, StruckAtRestore;
    k := EndsAtSite(order, request, p, t);
    var pre := Exec(order, request, Flatten(p)[..k], t);
    assert Handlers(pre.stack) == Enclosing(p, k) by {
      assert Handlers(t.stack) == [];
    }
    hide Handlers;
    StepEnds(order, request, Flatten(p)[k], pre);
  }

  // ---- handlers pushed earlier ------------------------------------------------------

  /** r, with other handlers below its own. */
  function Above(r: Thread, below: seq<Entry>): Thread {
    if r.ended then r.(trace := r.trace + RunAll(below, r.kind)) else r.(stack := below + r.stack)
  }

  lemma {:induction false} RunAllAbove(below: seq<Entry>, stack: seq<Entry>, kind: CancelType)
    ensures RunAll(below + stack, kind) == RunAll(stack, kind) + RunAll(below, kind)
    decreases |stack|
  {
    if stack == [] {
      assert below + stack == below;
    } else {
      var rest := stack[..|stack| - 1];
      assert (below + stack)[..|below + stack| - 1] == below + rest;
      RunAllAbove(below, rest, kind);
    }
  }

  lemma EndAbove(t: Thread, below: seq<Entry>)
    ensures End(t.(stack := below + t.stack)) == Above(End(t), below)
  {
    hide RunAll;
    RunAllAbove(below, t.stack, t.kind);
    assert t.trace + RunAll(t.stack, t.kind) + RunAll(below, t.kind)
        == t.trace + (RunAll(t.stack, t.kind) + RunAll(below, t.kind));
  }

  /** A single instruction does not look below, unless it pops an empty stack. */
  lemma StepAbove(order: Order, request: Option<nat>, i: Instr, t: Thread, below: seq<Entry>)
    requires !t.ended && (i.Pop? ==> t.stack != [])
    ensures Step(order, request, i, t.(stack := below + t.stack)) == Above(Step(order, request, i, t), below)
  {
    hide RunAll, End;
    EndsEnd(t);
    EndAbove(t, below);
    match i
    case Set(kind) =>
      EndAbove(t.(kind := kind), below);
      EndsEnd(t.(kind := kind));
    case Push(h, _) => assert below + t.stack + [Entry(h, t.kind)] == below + (t.stack + [Entry(h, t.kind)]);
    case Pop(execute, restore) => PopAbove(order, request, execute, restore, t, below);
    case _ =>
  }

  lemma EndsEnd(t: Thread)
    ensures End(t).ended
  {}

  lemma PopAbove(order: Order, request: Option<nat>, execute: int, restore: bool, t: Thread, below: seq<Entry>)
    requires !t.ended && t.stack != []
    ensures PopStep(order, request, execute, restore, t.(stack := below + t.stack))
            == Above(PopStep(order, request, execute, restore, t), below)
  {
    hide RunAll, End;
    var u, top, rest := t.(stack := below + t.stack), t.stack[|t.stack| - 1], t.stack[..|t.stack| - 1];
    assert u.stack[|u.stack| - 1] == top && u.stack[..|u.stack| - 1] == below + rest;
    var kind := if restore then top.saved else t.kind;
    var ending := t.(kind := kind, stack := if order == RestoreThenRemove then t.stack else rest);
    EndAbove(ending, below);
    EndsEnd(ending);
  }

  /** Handlers pushed earlier wait below: p neither sees nor disturbs them, and
      if it ends the thread they run after its own. */
  lemma {:induction false} StackBelowWaits(order: Order, request: Option<nat>, p: Program, t: Thread, below: seq<Entry>)
    requires !t.ended
    ensures Exec(order, request, Flatten(p), t.(stack := below + t.stack))
            == Above(Exec(order, request, Flatten(p), t), below)
    decreases p, 0
  {
    hide RunAll, Step;
    var u := t.(stack := below + t.stack);
    match p
    case Skip =>
    case Then(a, b) =>
      ExecConcat(order, request, Flatten(a), Flatten(b), t);
      ExecConcat(order, request, Flatten(a), Flatten(b), u);
      StackBelowWaits(order, request, a, t, below);
      var mid := Exec(order, request, Flatten(a), t);
      if !mid.ended {
        StackBelowWaits(order, request, b, mid, below);
      }
    case Block(defer, h, body, execute) => BlockAbove(order, request, defer, h, body, execute, t, below);
    case _ =>
      var i := Flatten(p)[0];
      ExecOne(order, request, i, t);
      ExecOne(order, request, i, u);
      StepAbove(order, request, i, t, below);
  }

  lemma {:induction false} BlockAbove(order: Order, request: Option<nat>, defer: bool, h: Handler, body: Program,
                                      execute: int, t: Thread, below: seq<Entry>)
    requires !t.ended
    ensures var code := Flatten(Block(defer, h, body, execute));
            Exec(order, request, code, t.(stack := below + t.stack)) == Above(Exec(order, request, code, t), below)
    decreases body, 1
  {
    hide RunAll, Step, Flatten;
    var u, push, pop := t.(stack := below + t.stack), Push(h, defer), Pop(execute, defer);
    ExecBlock(order, request, defer, h, body, execute, t);
    ExecBlock(order, request, defer, h, body, execute, u);
    StepAbove(order, request, push, t, below);
    var pushed := Step(order, request, push, t);
    if pushed.ended {
      EndedStays(order, request, Flatten(body), pushed);
      EndedStays(order, request, Flatten(body), Above(pushed, below));
    } else {
      StackBelowWaits(order, request, body, pushed, below);
      var inner := Exec(order, request, Flatten(body), pushed);
      if !inner.ended {
        NormalExit(order, request, body, pushed);
        PushedNotEmpty(order, request, h, defer, t);
        StepAbove(order, request, pop, inner, below);
      }
    }
  }

  lemma PushedNotEmpty(order: Order, request: Option<nat>, h: Handler, defer: bool, t: Thread)
    requires !Step(order, request, Push(h, defer), t).ended
    ensures Step(order, request, Push(h, defer), t).stack != []
  {}

  // ---- deferring blocks ---------------------------------------------------------------

  /** No cancellation point, no exit, and no change of the cancellation type. */
  predicate Quiet(p: Program) {
    match p
    case Skip => true
    case Then(a, b) => Quiet(a) && Quiet(b)
    case Act(_, point) => !point
    case SetType(_) => false
    case Exit => false
    case Block(_, _, body, _) => Quiet(body)
  }

  lemma QuietPush(order: Order, request: Option<nat>, h: Handler, defer: bool, t: Thread)
    requires !t.ended && t.kind == Deferred
    ensures !Step(order, request, Push(h, defer), t).ended
    ensures Step(order, request, Push(h, defer), t).kind == Deferred
    ensures Step(order, request, Push(h, defer), t).stack == t.stack + [Entry(h, Deferred)]
  {}

  lemma QuietPop(order: Order, request: Option<nat>, execute: int, restore: bool, t: Thread,
                 below: seq<Entry>, h: Handler)
    requires !t.ended && t.kind == Deferred && t.stack == below + [Entry(h, Deferred)]
    ensures !Step(order, request, Pop(execute, restore), t).ended
    ensures Step(order, request, Pop(execute, restore), t).kind == Deferred
  {}

  lemma {:induction false} QuietRunsThrough(order: Order, request: Option<nat>, p: Program, t: Thread)
    requires !t.ended && t.kind == Deferred && Quiet(p)
    ensures !Exec(order, request, Flatten(p), t).ended && Exec(order, request, Flatten(p), t).kind == Deferred
  {
    match p
    case Skip =>
    case Then(a, b) =>
      ExecConcat(order, request, Flatten(a), Flatten(b), t);
      QuietRunsThrough(order, request, a, t);
      QuietRunsThrough(order, request, b, Exec(order, request, Flatten(a), t));
    case Act(id, point) => ExecOne(order, request, Do(id, point), t);
    case Block(defer, h, body, execute) =>
      hide Step;
      ExecBlock(order, request, defer, h, body, execute, t);
      QuietPush(order, request, h, defer, t);
      var pushed := Step(order, request, Push(h, defer), t);
      QuietRunsThrough(order, request, body, pushed);
      NormalExit(order, request, body, pushed);
      QuietPop(order, request, execute, defer, Exec(order, request, Flatten(body), pushed), t.stack, h);
  }

  /** The body of a deferring block, if quiet, cannot be cancelled, even with a
      cancellation pending and an asynchronous type outside.  The pop restores
      that type.  If that makes a pending cancellation strike, the thread ends
      there, and the block's own handler runs or not by the order of the pop
      alone, whatever `execute` says; otherwise it runs iff `execute` is
      non-zero, and under the restored type. */
  lemma DeferringBlockProtects(order: Order, request: Option<nat>, h: Handler, body: Program, execute: int, t: Thread)
    requires !t.ended && Quiet(body) && !Struck(request, t.clock, t.kind, false)
    ensures var inside := Exec(order, request, Flatten(body), Step(order, request, Push(h, true), t));
            var r := Exec(order, request, Flatten(Block(true, h, body, execute)), t);
            var seen := t.trace + Normal(body, Deferred);
            && !inside.ended && inside.trace == seen
            && r.kind == t.kind
            && if Struck(request, t.clock + 1 + |Flatten(body)|, t.kind, false) then
                 r.ended && r.trace == seen + (if order == RestoreThenRemove then [Ran(h, t.kind)] else [])
                                       + RunAll(t.stack, t.kind)
               else
                 !r.ended && r.stack == t.stack
                 && r.trace == seen + if execute != 0 then [Ran(h, t.kind)] else []
  {
    ExecBlock(order, request, true, h, body, execute, t);
    var pushed := Step(order, request, Push(h, true), t);
    QuietRunsThrough(order, request, body, pushed);
    NormalExit(order, request, body, pushed);
    PopOfDeferring(order, request, h, execute, t.kind, t.stack, Exec(order, request, Flatten(body), pushed));
  }

  lemma PopOfDeferring(order: Order, request: Option<nat>, h: Handler, execute: int, kind: CancelType,
                       below: seq<Entry>, t: Thread)
    requires !t.ended && t.kind == Deferred && t.stack == below + [Entry(h, kind)]
    ensures var r := Step(order, request, Pop(execute, true), t);
            && r.kind == kind
            && if Struck(request, t.clock, kind, false) then
                 r.ended && r.trace == t.trace + (if order == RestoreThenRemove then [Ran(h, kind)] else [])
                                       + RunAll(below, kind)
               else
                 !r.ended && r.stack == below && r.trace == t.trace + if execute != 0 then [Ran(h, kind)] else []
  {
    RunAllAbove(below, [Entry(h, kind)], kind);
    assert t.stack[..|below|] == below;
    assert [Entry(h, kind)][..0] == [];
    assert t.trace + ([Ran(h, kind)] + RunAll(below, kind)) == t.trace + [Ran(h, kind)] + RunAll(below, kind);
  }

  // ---- where the two orders agree -------------------------------------------------------

  /** The run comes to a pop that restores the asynchronous type with the
      cancellation already pending. */
  predicate StrikesAtRestore(request: Option<nat>, code: seq<Instr>, t: Thread)
    decreases |code|
  {
    && code != [] && !t.ended
    && (|| StruckAtRestore(request, code[0], t)
        || StrikesAtRestore(request, code[1..], Step(RestoreThenRemove, request, code[0], t)))
  }

  lemma {:induction false} RunAllLength(stack: seq<Entry>, kind: CancelType)
    ensures |RunAll(stack, kind)| == |stack|
  {
    if stack != [] {
      RunAllLength(stack[..|stack| - 1], kind);
    }
  }

  /** The two orders do the same, except to a pop that is struck as it restores:
      there they always leave different traces. */
  lemma StepOrders(request: Option<nat>, i: Instr, t: Thread)
    requires !t.ended
    ensures var x, y := Step(RestoreThenRemove, request, i, t), Step(RemoveThenRestore, request, i, t);
            if StruckAtRestore(request, i, t) then x.ended && y.ended && |x.trace| == |y.trace| + 1 else x == y
  {
    if StruckAtRestore(request, i, t) {
      RunAllLength(t.stack, Asynchronous);
      RunAllLength(t.stack[..|t.stack| - 1], Asynchronous);
    }
  }

  /** Both orders leave the same thread behind exactly if no pop restores the
      asynchronous type with the cancellation already pending. */
  lemma {:induction false} OrdersAgreeExactly(request: Option<nat>, code: seq<Instr>, t: Thread)
    ensures var x, y := Exec(RestoreThenRemove, request, code, t), Exec(RemoveThenRestore, request, code, t);
            && (x == y <==> !StrikesAtRestore(request, code, t))
            && (x.trace == y.trace <==> !StrikesAtRestore(request, code, t))
    decreases |code|
  {
    hide Step;
    if code != [] && !t.ended {
      StepOrders(request, code[0], t);
      OrdersAgreeExactly(request, code[1..], Step(RestoreThenRemove, request, code[0], t));
    }
  }

  /** An empty deferring block under an asynchronous type, with a cancellation
      that arrives inside: restoring first runs the handler even if `execute` is
      zero, removing first does not run it even if `execute` is not. */
  lemma OrdersDiffer(h: Handler, execute: int)
    ensures var code, t := Flatten(Block(true, h, Skip, execute)), Thread(Asynchronous, 0, [], [], false);
            && Exec(RestoreThenRemove, Some(1), code, t).trace == [Ran(h, Asynchronous)]
            && Exec(RemoveThenRestore, Some(1), code, t).trace == []
  {
    DeferringBlockProtects(RestoreThenRemove, Some(1), h, Skip, execute, Thread(Asynchronous, 0, [], [], false));
    DeferringBlockProtects(RemoveThenRestore, Some(1), h, Skip, execute, Thread(Asynchronous, 0, [], [], false));
  }

  // ---- and for which programs they always agree -------------------------------------------

  predicate NeverExits(p: Program) {
    match p
    case Exit => false
    case Then(a, b) => NeverExits(a) && NeverExits(b)
    case Block(_, _, body, _) => NeverExits(body)
    case _ => true
  }

  /** p, entered under this type, gets to a deferring block that is entered under
      the asynchronous type and whose body leaves the deferred type alone. */
  predicate Exposed(p: Program, kind: CancelType) {
    match p
    case Then(a, b) => Exposed(a, kind) || (NeverExits(a) && Exposed(b, TypeAfter(a, kind)))
    case Block(defer, _, body, _) =>
      || Exposed(body, Entered(defer, kind))
      || (defer && kind == Asynchronous && NeverExits(body) && TypeAfter(body, Deferred) == Deferred)
    case _ => false
  }

  /** When a cancellation has to arrive to strike at the restore of that block. */
  function Moment(p: Program, kind: CancelType): nat
    requires Exposed(p, kind)
  {
    match p
    case Then(a, b) =>
      if Exposed(a, kind) then Moment(a, kind) else |Flatten(a)| + Moment(b, TypeAfter(a, kind))
    case Block(defer, _, body, _) =>
      1 + if Exposed(body, Entered(defer, kind)) then Moment(body, Entered(defer, kind)) else |Flatten(body)|
  }

  lemma {:induction false} ExitEnds(order: Order, request: Option<nat>, p: Program, t: Thread)
    requires !t.ended && !NeverExits(p)
    ensures Exec(order, request, Flatten(p), t).ended
  {
    match p
    case Exit => ExecOne(order, request, Leave, t);
    case Then(a, b) =>
      ExecConcat(order, request, Flatten(a), Flatten(b), t);
      var mid := Exec(order, request, Flatten(a), t);
      if !NeverExits(a) {
        ExitEnds(order, request, a, t);
      } else if !mid.ended {
        ExitEnds(order, request, b, mid);
      }
    case Block(defer, h, body, execute) =>
      hide Step;
      ExecBlock(order, request, defer, h, body, execute, t);
      var pushed := Step(order, request, Push(h, defer), t);
      if !pushed.ended {
        ExitEnds(order, request, body, pushed);
      }
  }

  predicate NotYet(request: Option<nat>, clock: nat) {
    request.Some? ==> clock <= request.value
  }

  lemma EarlyStep(order: Order, request: Option<nat>, i: Instr, t: Thread)
    requires !t.ended && NotYet(request, t.clock + 1) && !i.Leave?
    ensures !Step(order, request, i, t).ended
  {}

  /** A program without an exit runs through if no cancellation arrives before its end. */
  lemma {:induction false} EarlyRunsThrough(order: Order, request: Option<nat>, p: Program, t: Thread)
    requires !t.ended && NeverExits(p) && NotYet(request, t.clock + |Flatten(p)|)
    ensures ExitsNormally(p, t, Exec(order, request, Flatten(p), t))
  {
    hide Step;
    match p
    case Skip => NormalExit(order, request, p, t);
    case Then(a, b) =>
      ExecConcat(order, request, Flatten(a), Flatten(b), t);
      EarlyRunsThrough(order, request, a, t);
      EarlyRunsThrough(order, request, b, Exec(order, request, Flatten(a), t));
      NormalExit(order, request, p, t);
    case Block(defer, h, body, execute) =>
      ExecBlock(order, request, defer, h, body, execute, t);
      FlattenBlock(defer, h, body, execute);
      EarlyStep(order, request, Push(h, defer), t);
      PushNormal(order, request, h, defer, t);
      var pushed := Step(order, request, Push(h, defer), t);
      EarlyRunsThrough(order, request, body, pushed);
      EarlyStep(order, request, Pop(execute, defer), Exec(order, request, Flatten(body), pushed));
      NormalExit(order, request, p, t);
    case Exit =>
    case Act(id, point) =>
      ExecOne(order, request, Do(id, point), t);
      EarlyStep(order, request, Do(id, point), t);
      NormalExit(order, request, p, t);
    case SetType(kind) =>
      ExecOne(order, request, Set(kind), t);
      EarlyStep(order, request, Set(kind), t);
      NormalExit(order, request, p, t);
  }

  lemma {:induction false} StrikesConcat(request: Option<nat>, a: seq<Instr>, b: seq<Instr>, t: Thread)
    ensures StrikesAtRestore(request, a + b, t) <==>
              StrikesAtRestore(request, a, t) || StrikesAtRestore(request, b, Exec(RestoreThenRemove, request, a, t))
    decreases |a|
  {
    hide Step;
    if a == [] {
      assert a + b == b;
    } else if !t.ended {
      assert (a + b)[1..] == a[1..] + b;
      StrikesConcat(request, a[1..], b, Step(RestoreThenRemove, request, a[0], t));
    }
  }

  lemma StrikesOne(request: Option<nat>, i: Instr, t: Thread)
    ensures StrikesAtRestore(request, [i], t) <==> !t.ended && StruckAtRestore(request, i, t)
  {
    assert [i][1..] == [];
  }

  lemma StrikesBlock(request: Option<nat>, defer: bool, h: Handler, body: Program, execute: int, t: Thread)
    requires !t.ended
    ensures var pushed := Step(RestoreThenRemove, request, Push(h, defer), t);
            var inner := Exec(RestoreThenRemove, request, Flatten(body), pushed);
            StrikesAtRestore(request, Flatten(Block(defer, h, body, execute)), t) <==>
              || StrikesAtRestore(request, Flatten(body), pushed)
              || (!inner.ended && StruckAtRestore(request, Pop(execute, defer), inner))
  {
    hide Step, Exec, StrikesAtRestore;
    var push, x, pop := [Push(h, defer)], Flatten(body), [Pop(execute, defer)];
    StrikesConcat(request, push + x, pop, t);
    StrikesConcat(request, push, x, t);
    StrikesOne(request, push[0], t);
    ExecConcat(RestoreThenRemove, request, push, x, t);
    ExecOne(RestoreThenRemove, request, push[0], t);
    StrikesOne(request, pop[0], Exec(RestoreThenRemove, request, push + x, t));
  }

  lemma {:induction false} UnexposedNeverStrikes(request: Option<nat>, p: Program, t: Thread)
    requires !t.ended && !Exposed(p, t.kind)
    ensures !StrikesAtRestore(request, Flatten(p), t)
  {
    match p
    case Then(a, b) =>
      hide Step;
      StrikesConcat(request, Flatten(a), Flatten(b), t);
      UnexposedNeverStrikes(request, a, t);
      var mid := Exec(RestoreThenRemove, request, Flatten(a), t);
      if !mid.ended {
        NormalExit(RestoreThenRemove, request, a, t);
        if !NeverExits(a) {
          ExitEnds(RestoreThenRemove, request, a, t);
        } else {
          UnexposedNeverStrikes(request, b, mid);
        }
      }
    case Block(defer, h, body, execute) =>
      hide Step;
      StrikesBlock(request, defer, h, body, execute, t);
      var pushed := Step(RestoreThenRemove, request, Push(h, defer), t);
      if !pushed.ended {
        PushNormal(RestoreThenRemove, request, h, defer, t);
        UnexposedNeverStrikes(request, body, pushed);
        if !NeverExits(body) {
          ExitEnds(RestoreThenRemove, request, body, pushed);
        } else if !Exec(RestoreThenRemove, request, Flatten(body), pushed).ended {
          NormalExit(RestoreThenRemove, request, body, pushed);
        }
      }
    case Skip =>
    case _ => StrikesOne(request, Flatten(p)[0], t);
  }

  lemma {:induction false} ExposedStrikes(p: Program, t: Thread)
    requires !t.ended && Exposed(p, t.kind)
    ensures StrikesAtRestore(Some(t.clock + Moment(p, t.kind)), Flatten(p), t)
  {
    hide Step, Exec, StrikesAtRestore, Normal;
    var request := Some(t.clock + Moment(p, t.kind));
    match p
    case Then(a, b) =>
      StrikesConcat(request, Flatten(a), Flatten(b), t);
      if Exposed(a, t.kind) {
        ExposedStrikes(a, t);
      } else {
        EarlyRunsThrough(RestoreThenRemove, request, a, t);
        ExposedStrikes(b, Exec(RestoreThenRemove, request, Flatten(a), t));
      }
    case Block(defer, h, body, execute) =>
      StrikesBlock(request, defer, h, body, execute, t);
      EarlyStep(RestoreThenRemove, request, Push(h, defer), t);
      PushNormal(RestoreThenRemove, request, h, defer, t);
      var pushed := Step(RestoreThenRemove, request, Push(h, defer), t);
      if Exposed(body, Entered(defer, t.kind)) {
        ExposedStrikes(body, pushed);
      } else {
        EarlyRunsThrough(RestoreThenRemove, request, body, pushed);
      }
  }

  /** Whatever the time of the cancellation, both orders do the same to p exactly
      if p is not exposed: a property of its text and the type it is entered under. */
  lemma AgreeForEveryRequest(p: Program, t: Thread)
    requires !t.ended
    ensures (forall request ::
               Exec(RestoreThenRemove, request, Flatten(p), t) == Exec(RemoveThenRestore, request, Flatten(p), t))
            <==> !Exposed(p, t.kind)
  {
    hide Exec, StrikesAtRestore;
    if Exposed(p, t.kind) {
      ExposedStrikes(p, t);
      OrdersAgreeExactly(Some(t.clock + Moment(p, t.kind)), Flatten(p), t);
    } else {
      forall request
        ensures Exec(RestoreThenRemove, request, Flatten(p), t) == Exec(RemoveThenRestore, request, Flatten(p), t)
      {
        UnexposedNeverStrikes(request, p, t);
        OrdersAgreeExactly(request, Flatten(p), t);
      }
    }
  }
}
