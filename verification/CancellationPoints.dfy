/** When a cancellation is acted upon.  A program's text alone tells at which of
    its instructions a thread can be stopped; every run is the undisturbed run,
    cut at the first of them that comes after the request. */
module CancellationPoints {
  import opened Options
  import opened Cleanup

  /** The cancellation type just before instruction k of p in a run that is not
      cut short; for the number past the last instruction, the type after p. */
  function TypeAt(p: Program, k: nat, kind: CancelType): CancelType
    requires k <= |Flatten(p)|
  {
    match p
    case Then(a, b) =>
      var n := |Flatten(a)|;
      if k < n then TypeAt(a, k, kind) else TypeAt(b, k - n, TypeAt(a, n, kind))
    case SetType(chosen) => if k == 0 then kind else chosen
    case Block(defer, _, body, _) =>
      var n, inside := |Flatten(body)|, if defer then Deferred else kind;
      if k == 0 then kind else if k <= n + 1 then TypeAt(body, k - 1, inside)
      else if defer then kind else TypeAt(body, n, inside)
    case _ => kind
  }

  /** Instruction k stops a thread that gets there: it is an exit, or the request
      has arrived by then and the instruction is a cancellation point, or the type
      is asynchronous before or after it. */
  predicate Stops(p: Program, k: nat, kind: CancelType, request: Option<nat>, clock: nat)
    requires k < |Flatten(p)|
  {
    var i := Flatten(p)[k];
    || i.Leave?
    || (&& request.Some? && request.value <= clock + k
        && ((i.Do? && i.point) || TypeAt(p, k, kind) == Asynchronous || TypeAt(p, k + 1, kind) == Asynchronous))
  }

  /** None of the first n instructions stops the thread. */
  predicate Clear(p: Program, n: nat, kind: CancelType, request: Option<nat>, clock: nat)
    requires n <= |Flatten(p)|
  {
    forall k | 0 <= k < n :: !Stops(p, k, kind, request, clock)
  }

  predicate StopsFirst(p: Program, k: nat, kind: CancelType, request: Option<nat>, clock: nat)
    requires k < |Flatten(p)|
  {
    Stops(p, k, kind, request, clock) && Clear(p, k, kind, request, clock)
  }

  // ---- the type in force -----------------------------------------------------------

  lemma {:induction false} TypeAtStart(p: Program, kind: CancelType)
    ensures TypeAt(p, 0, kind) == kind
  {
    match p
    case Then(a, b) =>
      TypeAtStart(a, kind);
      TypeAtStart(b, TypeAt(a, |Flatten(a)|, kind));
    case _ =>
  }

  lemma {:induction false} TypeAtEnd(p: Program, kind: CancelType)
    ensures TypeAt(p, |Flatten(p)|, kind) == TypeAfter(p, kind)
  {
    match p
    case Then(a, b) =>
      TypeAtEnd(a, kind);
      TypeAtEnd(b, TypeAfter(a, kind));
    case Block(defer, _, body, _) => TypeAtEnd(body, Entered(defer, kind));
    case _ =>
  }

  lemma TypeInThen(a: Program, b: Program, k: nat, kind: CancelType)
    requires k <= |Flatten(Then(a, b))|
    ensures var n := |Flatten(a)|;
            && (k <= n ==> TypeAt(Then(a, b), k, kind) == TypeAt(a, k, kind))
            && (k >= n ==> TypeAt(Then(a, b), k, kind) == TypeAt(b, k - n, TypeAt(a, n, kind)))
  {
    TypeAtStart(b, TypeAt(a, |Flatten(a)|, kind));
  }

  /** The stops of a sequence are those of its parts. */
  lemma StopsInThen(a: Program, b: Program, k: nat, kind: CancelType, request: Option<nat>, clock: nat)
    requires k < |Flatten(Then(a, b))|
    ensures var n := |Flatten(a)|;
            Stops(Then(a, b), k, kind, request, clock)
            <==> if k < n then Stops(a, k, kind, request, clock)
                 else Stops(b, k - n, TypeAt(a, n, kind), request, clock + n)
  {
    hide TypeAt;
    TypeInThen(a, b, k, kind);
    TypeInThen(a, b, k + 1, kind);
    var x, y := Flatten(a), Flatten(b);
    assert (x + y)[k] == if k < |x| then x[k] else y[k - |x|];
  }

  /** The stops of a block are its push, those of its body, and its pop. */
  lemma StopsInBlock(p: Program, k: nat, kind: CancelType, request: Option<nat>, clock: nat)
    requires p.Block? && k < |Flatten(p)|
    ensures |Flatten(p)| == |Flatten(p.body)| + 2
    ensures var n, inside := |Flatten(p.body)|, Entered(p.defer, kind);
            var arrived := request.Some? && request.value <= clock + k;
            Stops(p, k, kind, request, clock)
            <==> if k == 0 then arrived && kind == Asynchronous
                 else if k <= n then Stops(p.body, k - 1, inside, request, clock + 1)
                 else arrived && (TypeAfter(p.body, inside) == Asynchronous || TypeAfter(p, kind) == Asynchronous)
  {
    TypeAtStart(p.body, Entered(p.defer, kind));
    TypeAtEnd(p.body, Entered(p.defer, kind));
    TypeAtEnd(p, kind);
    if 0 < k <= |Flatten(p.body)| {
      assert Flatten(p)[k] == Flatten(p.body)[k - 1];
    }
  }

  lemma ClearInThen(a: Program, b: Program, m: nat, kind: CancelType, request: Option<nat>, clock: nat)
    requires m <= |Flatten(Then(a, b))| && Clear(Then(a, b), m, kind, request, clock)
    ensures var n := |Flatten(a)|;
            && (m <= n ==> Clear(a, m, kind, request, clock))
            && (m >= n ==> Clear(a, n, kind, request, clock)
                           && Clear(b, m - n, TypeAt(a, n, kind), request, clock + n))
  {
    hide Stops, TypeAt;
    var n, between, later := |Flatten(a)|, TypeAt(a, |Flatten(a)|, kind), clock + |Flatten(a)|;
    forall k | 0 <= k < m && k < n
      ensures !Stops(a, k, kind, request, clock)
    {
      StopsInThen(a, b, k, kind, request, clock);
    }
    forall k | 0 <= k < m - n
      ensures !Stops(b, k, between, request, later)
    {
      StopsInThen(a, b, n + k, kind, request, clock);
    }
  }

  lemma ClearInBlock(p: Program, m: nat, kind: CancelType, request: Option<nat>, clock: nat)
    requires p.Block? && 0 < m <= |Flatten(p)| && Clear(p, m, kind, request, clock)
    ensures !Stops(p, 0, kind, request, clock)
    ensures var n := if m <= |Flatten(p.body)| then m - 1 else |Flatten(p.body)|;
            Clear(p.body, n, Entered(p.defer, kind), request, clock + 1)
  {
    hide Stops, TypeAfter;
    var n := if m <= |Flatten(p.body)| then m - 1 else |Flatten(p.body)|;
    StopsInBlock(p, 0, kind, request, clock);
    var inside, later := Entered(p.defer, kind), clock + 1;
    forall k | 0 <= k < n
      ensures !Stops(p.body, k, inside, request, later)
    {
      StopsInBlock(p, k + 1, kind, request, clock);
    }
  }

  // ---- one instruction ---------------------------------------------------------------

  function TypeOut(i: Instr, t: Thread): CancelType {
    match i
    case Set(kind) => kind
    case Push(_, defer) => if defer then Deferred else t.kind
    case Pop(_, restore) => if restore && t.stack != [] then t.stack[|t.stack| - 1].saved else t.kind
    case _ => t.kind
  }

  /** A cancellation takes effect no earlier and no later than it should. */
  lemma StepStops(order: Order, request: Option<nat>, i: Instr, t: Thread)
    requires !t.ended
    ensures var r := Step(order, request, i, t);
            && (r.ended <==>
                  || i.Leave?
                  || (&& request.Some? && request.value <= t.clock
                      && ((i.Do? && i.point) || t.kind == Asynchronous || TypeOut(i, t) == Asynchronous)))
            && r.kind == if r.ended && t.kind == Asynchronous then Asynchronous else TypeOut(i, t)
  {}

  // ---- whole programs ------------------------------------------------------------------

  /** t, executing p, ends at instruction k, under the right type. */
  predicate StoppedAt(order: Order, request: Option<nat>, p: Program, t: Thread, k: nat)
    requires k < |Flatten(p)|
  {
    var r := Exec(order, request, Flatten(p), t);
    && r.ended && EndsAt(order, request, p, t, k)
    && r.kind == (if TypeAt(p, k, t.kind) == Asynchronous then Asynchronous else TypeAt(p, k + 1, t.kind))
  }

  lemma StopsHere(order: Order, request: Option<nat>, p: Program, t: Thread)
    requires !t.ended && (p.Act? || p.SetType? || p.Exit?)
    ensures Stops(p, 0, t.kind, request, t.clock) <==> Exec(order, request, Flatten(p), t).ended
    ensures Stops(p, 0, t.kind, request, t.clock) ==> StoppedAt(order, request, p, t, 0)
  {
    hide Step, Exec, EndsAt;
    ExecOne(order, request, Flatten(p)[0], t);
    StepStops(order, request, Flatten(p)[0], t);
    EndsHere(order, request, p, t);
  }

  /** A block that is not stopped at its push is entered. */
  lemma EntersBlock(order: Order, request: Option<nat>, p: Program, t: Thread)
    requires !t.ended && p.Block? && |Flatten(p)| > 0 && !Stops(p, 0, t.kind, request, t.clock)
    ensures Step(order, request, Push(p.handler, p.defer), t)
            == t.(stack := t.stack + [Entry(p.handler, t.kind)], kind := Entered(p.defer, t.kind), clock := t.clock + 1)
  {
    StopsInBlock(p, 0, t.kind, request, t.clock);
    hide Stops;
    StepStops(order, request, Push(p.handler, p.defer), t);
    PushNormal(order, request, p.handler, p.defer, t);
  }

  /** The pop of a block stops a thread that has run through the body as its text says. */
  lemma PopStops(order: Order, request: Option<nat>, p: Program, t: Thread, inner: Thread)
    requires !t.ended && p.Block? && !inner.ended && |Flatten(p.body)| + 1 < |Flatten(p)|
    requires inner.stack == t.stack + [Entry(p.handler, t.kind)]
    requires inner.clock == t.clock + 1 + |Flatten(p.body)|
    requires inner.kind == TypeAfter(p.body, Entered(p.defer, t.kind))
    ensures var n, r := |Flatten(p.body)|, Step(order, request, Pop(p.execute, p.defer), inner);
            && (Stops(p, n + 1, t.kind, request, t.clock) <==> r.ended)
            && r.kind == if r.ended && TypeAt(p, n + 1, t.kind) == Asynchronous then Asynchronous
                         else TypeAt(p, n + 2, t.kind)
  {
    StopsInBlock(p, |Flatten(p.body)| + 1, t.kind, request, t.clock);
    hide Stops, Step;
    StepStops(order, request, Pop(p.execute, p.defer), inner);
    TypeAtEnd(p.body, Entered(p.defer, t.kind));
    TypeAtEnd(p, t.kind);
  }

  /** Where no instruction stops it, a thread gets to the end. */
  lemma {:induction false} RunsThrough(order: Order, request: Option<nat>, p: Program, t: Thread)
    requires !t.ended && Clear(p, |Flatten(p)|, t.kind, request, t.clock)
    ensures !Exec(order, request, Flatten(p), t).ended
    decreases p, 0
  {
    hide Step, Exec, Normal, RunAll, Stops;
    match p
    case Skip => NothingToDo(order, request, t);
    case Then(a, b) =>
      hide Clear;
      ClearInThen(a, b, |Flatten(p)|, t.kind, request, t.clock);
      ExecConcat(order, request, Flatten(a), Flatten(b), t);
      RunsThrough(order, request, a, t);
      NormalExit(order, request, a, t);
      TypeAtEnd(a, t.kind);
      RunsThrough(order, request, b, Exec(order, request, Flatten(a), t));
    case Block(_, _, _, _) => BlockRunsThrough(order, request, p, t);
    case _ => StopsHere(order, request, p, t);
  }

  lemma {:induction false} BlockRunsThrough(order: Order, request: Option<nat>, p: Program, t: Thread)
    requires !t.ended && p.Block? && Clear(p, |Flatten(p)|, t.kind, request, t.clock)
    ensures !Exec(order, request, Flatten(p), t).ended
    decreases p.body, 1
  {
    FlattenBlock(p.defer, p.handler, p.body, p.execute);
    hide Step, Exec, Normal, RunAll, Stops, Flatten, TypeAfter, TypeAt, Entered;
    assert !Stops(p, |Flatten(p.body)| + 1, t.kind, request, t.clock);
    hide Clear;
    ClearInBlock(p, |Flatten(p)|, t.kind, request, t.clock);
    EntersBlock(order, request, p, t);
    var pushed := Step(order, request, Push(p.handler, p.defer), t);
    RunsThrough(order, request, p.body, pushed);
    NormalExit(order, request, p.body, pushed);
    PopStops(order, request, p, t, Exec(order, request, Flatten(p.body), pushed));
    ExecBlock(order, request, p.defer, p.handler, p.body, p.execute, t);
  }

  lemma {:induction false} StopsInFirst(order: Order, request: Option<nat>, a: Program, b: Program, t: Thread, k: nat)
    requires !t.ended && k < |Flatten(a)| && StopsFirst(Then(a, b), k, t.kind, request, t.clock)
    ensures StoppedAt(order, request, Then(a, b), t, k)
    decreases a, 1
  {
    hide Step, Exec, RunAll, EndsAt, Stops, Clear;
    StopsInThen(a, b, k, t.kind, request, t.clock);
    ClearInThen(a, b, k, t.kind, request, t.clock);
    StopsThere(order, request, a, t, k);
    EndsInFirst(order, request, a, b, t, k);
    ExecConcat(order, request, Flatten(a), Flatten(b), t);
    EndedStays(order, request, Flatten(b), Exec(order, request, Flatten(a), t));
    TypeAtStart(b, TypeAt(a, |Flatten(a)|, t.kind));
  }

  lemma {:induction false} StopsInSecond(order: Order, request: Option<nat>, a: Program, b: Program, t: Thread, k: nat)
    requires !t.ended && |Flatten(a)| <= k < |Flatten(Then(a, b))|
    requires StopsFirst(Then(a, b), k, t.kind, request, t.clock)
    ensures StoppedAt(order, request, Then(a, b), t, k)
    decreases b, 1
  {
    hide Step, Exec, Normal, RunAll, EndsAt, Stops, Clear;
    var n, mid := |Flatten(a)|, Exec(order, request, Flatten(a), t);
    StopsInThen(a, b, k, t.kind, request, t.clock);
    ClearInThen(a, b, k, t.kind, request, t.clock);
    RunsThrough(order, request, a, t);
    NormalExit(order, request, a, t);
    TypeAtEnd(a, t.kind);
    StopsThere(order, request, b, mid, k - n);
    EndsInSecond(order, request, a, b, t, k - n);
    ExecConcat(order, request, Flatten(a), Flatten(b), t);
  }

  lemma StopsAtPush(order: Order, request: Option<nat>, p: Program, t: Thread)
    requires !t.ended && p.Block? && |Flatten(p)| > 0 && StopsFirst(p, 0, t.kind, request, t.clock)
    ensures StoppedAt(order, request, p, t, 0)
  {
    hide Step, Exec, RunAll, EndsAt, Stops, Clear;
    StopsInBlock(p, 0, t.kind, request, t.clock);
    StepStops(order, request, Push(p.handler, p.defer), t);
    EndsAtPush(order, request, p, t);
    ExecBlock(order, request, p.defer, p.handler, p.body, p.execute, t);
    EndedStays(order, request, Flatten(p.body), Step(order, request, Push(p.handler, p.defer), t));
  }

  lemma {:induction false} StopsInBody(order: Order, request: Option<nat>, p: Program, t: Thread, k: nat)
    requires !t.ended && p.Block? && 0 < k <= |Flatten(p.body)| < |Flatten(p)|
    requires StopsFirst(p, k, t.kind, request, t.clock)
    ensures StoppedAt(order, request, p, t, k)
    decreases p.body, 1
  {
    hide Step, Exec, RunAll, EndsAt, Stops, Clear;
    StopsInBlock(p, k, t.kind, request, t.clock);
    ClearInBlock(p, k, t.kind, request, t.clock);
    EntersBlock(order, request, p, t);
    StopsThere(order, request, p.body, Step(order, request, Push(p.handler, p.defer), t), k - 1);
    EndsInBody(order, request, p, t, k - 1);
    ExecBlock(order, request, p.defer, p.handler, p.body, p.execute, t);
  }

  lemma {:induction false} StopsAtPop(order: Order, request: Option<nat>, p: Program, t: Thread)
    requires !t.ended && p.Block? && |Flatten(p.body)| + 1 < |Flatten(p)|
    requires StopsFirst(p, |Flatten(p.body)| + 1, t.kind, request, t.clock)
    ensures StoppedAt(order, request, p, t, |Flatten(p.body)| + 1)
  {
    hide Step, Exec, Normal, RunAll, EndsAt, Stops, Clear, Flatten, TypeAt, TypeAfter, Entered;
    ClearInBlock(p, |Flatten(p.body)| + 1, t.kind, request, t.clock);
    EntersBlock(order, request, p, t);
    var pushed := Step(order, request, Push(p.handler, p.defer), t);
    RunsThrough(order, request, p.body, pushed);
    NormalExit(order, request, p.body, pushed);
    PopStops(order, request, p, t, Exec(order, request, Flatten(p.body), pushed));
    EndsAtPop(order, request, p, t);
    ExecBlock(order, request, p.defer, p.handler, p.body, p.execute, t);
  }

  /** The first instruction to stop a thread is where it ends. */
  lemma {:induction false} StopsThere(order: Order, request: Option<nat>, p: Program, t: Thread, k: nat)
    requires !t.ended && k < |Flatten(p)| && StopsFirst(p, k, t.kind, request, t.clock)
    ensures StoppedAt(order, request, p, t, k)
    decreases p, 0
  {
    hide Step, Exec, RunAll, EndsAt;
    match p
    case Then(a, b) =>
      hide StoppedAt, Stops;
      if k < |Flatten(a)| {
        StopsInFirst(order, request, a, b, t, k);
      } else {
        StopsInSecond(order, request, a, b, t, k);
      }
    case Block(_, _, body, _) =>
      hide StoppedAt, Stops;
      if k == 0 {
        StopsAtPush(order, request, p, t);
      } else if k <= |Flatten(body)| {
        StopsInBody(order, request, p, t, k);
      } else {
        StopsAtPop(order, request, p, t);
      }
    case Act(_, _) => StopsHere(order, request, p, t);
    case SetType(_) => StopsHere(order, request, p, t);
    case Exit => StopsHere(order, request, p, t);
  }

  /** The least k below n that stops, if one does. */
  lemma {:induction false} SomeStopsFirst(p: Program, n: nat, kind: CancelType, request: Option<nat>, clock: nat)
    requires n < |Flatten(p)| && Stops(p, n, kind, request, clock)
    ensures exists k | 0 <= k < |Flatten(p)| :: StopsFirst(p, k, kind, request, clock)
  {
    if j :| 0 <= j < n && Stops(p, j, kind, request, clock) {
      SomeStopsFirst(p, j, kind, request, clock);
    } else {
      assert StopsFirst(p, n, kind, request, clock);
    }
  }

  /** A thread is cut short exactly if some instruction stops it: no cancellation
      is missed, and none strikes out of turn. */
  lemma CutShortExactly(order: Order, request: Option<nat>, p: Program, t: Thread)
    requires !t.ended
    ensures Exec(order, request, Flatten(p), t).ended
            <==> exists k | 0 <= k < |Flatten(p)| :: Stops(p, k, t.kind, request, t.clock)
  {
    hide Exec, Stops;
    if n :| 0 <= n < |Flatten(p)| && Stops(p, n, t.kind, request, t.clock) {
      SomeStopsFirst(p, n, t.kind, request, t.clock);
      var k :| 0 <= k < |Flatten(p)| && StopsFirst(p, k, t.kind, request, t.clock);
      StopsThere(order, request, p, t, k);
    } else {
      assert Clear(p, |Flatten(p)|, t.kind, request, t.clock);
      RunsThrough(order, request, p, t);
    }
  }

  lemma EndsEmpty(order: Order, request: Option<nat>, i: Instr, t: Thread)
    requires !t.ended && Step(order, request, i, t).ended
    ensures Step(order, request, i, t).stack == []
  {}

  /** Up to where it is cut, a run is the run without any request. */
  lemma {:induction false} UndisturbedUntilThen(order: Order, request: Option<nat>, code: seq<Instr>, t: Thread)
    requires !Exec(order, request, code, t).ended
    ensures Exec(order, None, code, t) == Exec(order, request, code, t)
    decreases |code|
  {
    if code != [] && !t.ended {
      UndisturbedUntilThen(order, request, code[1..], Step(order, request, code[0], t));
    }
  }

  lemma TypeInBlock(order: Order, request: Option<nat>, p: Program, t: Thread, k: nat)
    requires p.Block? && !t.ended && 0 < k <= |Flatten(p.body)| + 1
    requires k <= |Flatten(p)| && !Exec(order, request, Flatten(p)[..k], t).ended
    ensures var pushed := Step(order, request, Push(p.handler, p.defer), t);
            && pushed.kind == Entered(p.defer, t.kind) && pushed.clock == t.clock + 1 && !pushed.ended
            && Exec(order, request, Flatten(p)[..k], t) == Exec(order, request, Flatten(p.body)[..k - 1], pushed)
  {
    hide Step, Exec;
    var pushed := Step(order, request, Push(p.handler, p.defer), t);
    BlockPrefix(order, request, p, t, k - 1);
    if pushed.ended {
      EndedStays(order, request, Flatten(p.body)[..k - 1], pushed);
    }
    PushNormal(order, request, p.handler, p.defer, t);
  }

  /** A thread that gets to instruction k gets there under the type that the text
      gives, and one tick of the clock per instruction later. */
  lemma {:induction false} TypeInForce(order: Order, request: Option<nat>, p: Program, t: Thread, k: nat)
    requires !t.ended && k <= |Flatten(p)| && !Exec(order, request, Flatten(p)[..k], t).ended
    ensures var pre := Exec(order, request, Flatten(p)[..k], t);
            pre.kind == TypeAt(p, k, t.kind) && pre.clock == t.clock + k
  {
    hide Step, Normal, RunAll;
    if k == 0 {
      assert Flatten(p)[..0] == [];
      TypeAtStart(p, t.kind);
    } else if k == |Flatten(p)| {
      assert Flatten(p)[..k] == Flatten(p);
      NormalExit(order, request, p, t);
      TypeAtEnd(p, t.kind);
    } else {
      match p
      case Then(a, b) =>
        var x, y := Flatten(a), Flatten(b);
        if k < |x| {
          assert (x + y)[..k] == x[..k];
          TypeInForce(order, request, a, t, k);
        } else {
          assert (x + y)[..k] == x + y[..k - |x|];
          ExecConcat(order, request, x, y[..k - |x|], t);
          assert x[..|x|] == x;
          TypeInForce(order, request, a, t, |x|);
          TypeInForce(order, request, b, Exec(order, request, x, t), k - |x|);
        }
      case Block(defer, h, body, _) =>
        TypeInBlock(order, request, p, t, k);
        TypeInForce(order, request, body, Step(order, request, Push(h, defer), t), k - 1);
    }
  }

  /** Every run that is cut short does what the run without a request does up to
      the first instruction that stops it, and then runs exactly the handlers of
      the blocks around that instruction, innermost first.  Where that
      instruction is a pop that restores the asynchronous type, the order of the
      expansion decides about its own handler. */
  lemma CutAtFirstStop(order: Order, request: Option<nat>, p: Program, t: Thread, k: nat)
    requires !t.ended && t.stack == [] && k < |Flatten(p)| && StopsFirst(p, k, t.kind, request, t.clock)
    ensures var r, before, after := Exec(order, request, Flatten(p), t), TypeAt(p, k, t.kind), TypeAt(p, k + 1, t.kind);
            && r.ended && r.stack == []
            && r.kind == (if before == Asynchronous then before else after)
            && var atRestore := Flatten(p)[k].Pop? && before != after && after == Asynchronous;
               r.trace == Exec(order, None, Flatten(p)[..k], t).trace
                          + RunHandlers(Active(order, p, k, atRestore), r.kind)
  {
    hide Exec, Step, RunAll, RunHandlers, Enclosing, TypeAt;
    var pre, i := Exec(order, request, Flatten(p)[..k], t), Flatten(p)[k];
    StopsThere(order, request, p, t, k);
    UndisturbedUntilThen(order, request, Flatten(p)[..k], t);
    TypeInForce(order, request, p, t, k);
    StepStops(order, request, i, pre);
    StepEnds(order, request, i, pre);
    EndsEmpty(order, request, i, pre);
    assert Handlers(pre.stack) == Enclosing(p, k) by {
      assert Handlers(t.stack) == [];
    }
  }

  // ---- what a thread can count on ---------------------------------------------------------

  /** A thread that gets to an instruction has not been stopped before. */
  lemma ReachedUnstopped(order: Order, request: Option<nat>, p: Program, t: Thread, k: nat)
    requires !t.ended && k < |Flatten(p)| && !Exec(order, request, Flatten(p)[..k], t).ended
    ensures Clear(p, k, t.kind, request, t.clock)
  {
    hide Exec, Step, Stops, Enclosing, Handlers, Flatten;
    if n :| 0 <= n < k && Stops(p, n, t.kind, request, t.clock) {
      SomeStopsFirst(p, n, t.kind, request, t.clock);
      var j :| 0 <= j < |Flatten(p)| && StopsFirst(p, j, t.kind, request, t.clock);
      StopsThere(order, request, p, t, j);
      var code, pre := Flatten(p), Exec(order, request, Flatten(p)[..j], t);
      assert code[..k] == code[..j] + ([code[j]] + code[j + 1..k]);
      ExecConcat(order, request, code[..j], [code[j]] + code[j + 1..k], t);
      ExecConcat(order, request, [code[j]], code[j + 1..k], pre);
      ExecOne(order, request, code[j], pre);
      EndedStays(order, request, code[j + 1..k], Step(order, request, code[j], pre));
    }
  }

  /** A thread that gets to a cancellation point with the request already made
      ends there, whatever the cancellation type, and runs the handlers around
      the point and then those pushed before p. */
  lemma ReachedPointEnds(order: Order, request: Option<nat>, p: Program, t: Thread, k: nat)
    requires !t.ended && k < |Flatten(p)| && !Exec(order, request, Flatten(p)[..k], t).ended
    requires Flatten(p)[k].Do? && Flatten(p)[k].point
    requires request.Some? && request.value <= t.clock + k
    ensures var pre, r := Exec(order, request, Flatten(p)[..k], t), Exec(order, request, Flatten(p), t);
            && r.ended && r.kind == pre.kind
            && r.trace == pre.trace + RunHandlers(Handlers(t.stack) + Enclosing(p, k), pre.kind)
  {
    hide Exec, Step, RunAll, RunHandlers, Enclosing, Handlers, TypeAt;
    ReachedUnstopped(order, request, p, t, k);
    StopsThere(order, request, p, t, k);
    var pre := Exec(order, request, Flatten(p)[..k], t);
    StepStops(order, request, Flatten(p)[k], pre);
    StepEnds(order, request, Flatten(p)[k], pre);
  }

  /** In particular a cancellation point itself: the action is not performed. */
  lemma PointEnds(order: Order, request: Option<nat>, id: nat, t: Thread)
    requires !t.ended && request.Some? && request.value <= t.clock
    ensures var r := Exec(order, request, Flatten(Act(id, true)), t);
            r.ended && r.trace == t.trace + RunAll(t.stack, t.kind)
  {
    ExecOne(order, request, Do(id, true), t);
  }

  /** Under the asynchronous type a request takes effect at once, whatever comes next. */
  lemma AsynchronousEndsAtOnce(order: Order, request: Option<nat>, code: seq<Instr>, t: Thread)
    requires !t.ended && t.kind == Asynchronous && request.Some? && request.value <= t.clock && code != []
    ensures var r := Exec(order, request, code, t);
            r.ended && r.kind == Asynchronous && r.trace == t.trace + RunAll(t.stack, Asynchronous)
  {
    EndedStays(order, request, code[1..], Step(order, request, code[0], t));
  }

  /** Under the deferred type an action that is no cancellation point is always performed. */
  lemma DeferredActs(order: Order, request: Option<nat>, id: nat, t: Thread)
    requires !t.ended && t.kind == Deferred
    ensures Exec(order, request, Flatten(Act(id, false)), t)
            == t.(clock := t.clock + 1, trace := t.trace + [Did(id, Deferred)])
  {
    ExecOne(order, request, Do(id, false), t);
  }

  /** A cancellation point in a block that defers nothing: the handler runs,
      whatever `execute` says, and the action does not. */
  lemma PointInBlock(order: Order, request: Option<nat>, h: Handler, id: nat, execute: int, t: Thread)
    requires !t.ended && t.stack == [] && t.kind == Deferred && request.Some? && request.value <= t.clock
    ensures var r := Exec(order, request, Flatten(Block(false, h, Act(id, true), execute)), t);
            r.ended && r.trace == t.trace + [Ran(h, Deferred)]
  {
    ExecBlock(order, request, false, h, Act(id, true), execute, t);
    PointEnds(order, request, id, Step(order, request, Push(h, false), t));
  }

  /** A block that is left normally: its body ran with the handler on top of the
      stack, under the deferred type if the block defers; then the handler comes
      off, the type is restored if the block defers, and the handler runs under
      it exactly if `execute` is not zero. */
  lemma BlockLeft(order: Order, request: Option<nat>, defer: bool, h: Handler, body: Program, execute: int, t: Thread)
    requires !t.ended && !Exec(order, request, Flatten(Block(defer, h, body, execute)), t).ended
    ensures var inside := t.(stack := t.stack + [Entry(h, t.kind)], kind := if defer then Deferred else t.kind,
                             clock := t.clock + 1);
            var done := Exec(order, request, Flatten(body), inside);
            var kind := if defer then t.kind else done.kind;
            && !done.ended && done.stack == inside.stack
            && Exec(order, request, Flatten(Block(defer, h, body, execute)), t)
               == Thread(kind, done.clock + 1, t.stack,
                         done.trace + (if execute != 0 then [Ran(h, kind)] else []), false)
  {
    hide Step, Normal, RunAll, Flatten;
    ExecBlock(order, request, defer, h, body, execute, t);
    var pushed := Step(order, request, Push(h, defer), t);
    EndedStaysEnded(order, request, Flatten(body), pushed);
    PushNormal(order, request, h, defer, t);
    var done := Exec(order, request, Flatten(body), pushed);
    NormalExit(order, request, body, pushed);
    PopNormal(order, request, execute, defer, done, t.stack, Entry(h, t.kind));
  }

  lemma EndedStaysEnded(order: Order, request: Option<nat>, code: seq<Instr>, t: Thread)
    ensures t.ended ==> Exec(order, request, code, t).ended
  {}
}
