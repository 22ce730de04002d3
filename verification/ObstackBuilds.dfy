/** The two versions of the macros, run side by side, and each against the
    stack of byte strings. */
module ObstackBuilds {
  import opened ObstackMacros
  import opened ObstackRefinement
  import opened ObstackRuns
  import opened ObstackSpec
  import opened Options

  /** A macro call.  `spare` is where the chunk lies that the allocator would
      hand out; `victim` counts from the bottom of the stack the object that the
      caller of obstack_free means. */
  datatype Call =
    | MakeRoomCall(len: nat, spare: Header)
    | GrowCall(bytes: seq<Byte>, spare: Header)
    | Grow0Call(bytes: seq<Byte>, spare: Header)
    | Grow1Call(b: Byte, spare: Header)
    | WordGrowCall(bytes: seq<Byte>, spare: Header)
    | Grow1FastCall(b: Byte)
    | WordGrowFastCall(bytes: seq<Byte>)
    | BlankCall(delta: int, spare: Header)
    | BlankFastCall(delta: int)
    | FinishCall
    | AllocCall(delta: int, spare: Header)
    | CopyCall(bytes: seq<Byte>, spare: Header)
    | Copy0Call(bytes: seq<Byte>, spare: Header)
    | FreeCall(p: nat, victim: nat)

  /** The first operation a call stands for, with memory m. */
  function FirstOp(c: Call, m: seq<Byte>): Op {
    match c
    case MakeRoomCall(len, h) => MakeRoomOp(len, Image(h, m))
    case GrowCall(bytes, h) => GrowOp(bytes, Image(h, m))
    case Grow0Call(bytes, h) => Grow0Op(bytes, Image(h, m))
    case Grow1Call(b, h) => GrowOp([b], Image(h, m))
    case WordGrowCall(bytes, h) => GrowOp(bytes, Image(h, m))
    case Grow1FastCall(b) => GrowFastOp([b])
    case WordGrowFastCall(bytes) => GrowFastOp(bytes)
    case BlankCall(delta, h) => BlankOp(delta, Image(h, m))
    case BlankFastCall(delta) => BlankFastOp(delta)
    case FinishCall => FinishOp
    case AllocCall(delta, h) => BlankOp(delta, Image(h, m))
    case CopyCall(bytes, h) => GrowOp(bytes, Image(h, m))
    case Copy0Call(bytes, h) => Grow0Op(bytes, Image(h, m))
    case FreeCall(p, victim) => FreeOp(p, victim)
  }

  /** obstack_alloc, obstack_copy and obstack_copy0 end with an obstack_finish. */
  predicate Finishes(c: Call) {
    c.AllocCall? || c.CopyCall? || c.Copy0Call?
  }

  function Ops(c: Call, m: seq<Byte>): seq<Op> {
    if Finishes(c) then [FirstOp(c, m), FinishOp] else [FirstOp(c, m)]
  }

  /** The call is within the macros' contract. */
  predicate Admits(s: Obstack, c: Call, m: seq<Byte>)
    requires Shape(s)
  {
    Enabled(s, FirstOp(c, m)) && (c.FreeCall? ==> Shape(Free(s, c.p)))
  }

  lemma GrowKeepsShape(s: Obstack, bytes: seq<Byte>, spare: Chunk)
    requires Shape(s) && (Overflows(s, |bytes|) ==> Fresh(s, |bytes|, spare))
    ensures Shape(Grow(s, bytes, spare))
  {
    hide MakeRoom, Append, Usable, Apart;
    MakeRoomKeepsShape(s, |bytes|, spare);
    AppendKeepsShape(MakeRoom(s, |bytes|, spare), bytes);
  }

  lemma Grow0KeepsShape(s: Obstack, bytes: seq<Byte>, spare: Chunk)
    requires Shape(s) && (Overflows(s, |bytes| + 1) ==> Fresh(s, |bytes| + 1, spare))
    ensures Shape(Grow0(s, bytes, spare))
  {
    hide MakeRoom, Write, Usable, Apart;
    MakeRoomKeepsShape(s, |bytes| + 1, spare);
    var roomy := MakeRoom(s, |bytes| + 1, spare);
    AppendKeepsShape(roomy, bytes);
    AppendKeepsShape(Append(roomy, bytes), [0]);
  }

  lemma StepKeepsShape(s: Obstack, op: Op)
    requires Shape(s) && Enabled(s, op) && !op.FreeOp?
    ensures Shape(Step(s, op))
  {
    hide Fresh, MakeRoom, Append, Grow, Grow0, Finish, Usable, Apart, Start;
    match op
    case MakeRoomOp(len, spare) => MakeRoomKeepsShape(s, len, spare);
    case GrowOp(bytes, spare) => GrowKeepsShape(s, bytes, spare);
    case Grow0Op(bytes, spare) => Grow0KeepsShape(s, bytes, spare);
    case GrowFastOp(bytes) => AppendKeepsShape(s, bytes);
    case BlankOp(delta, spare) => MakeRoomKeepsShape(s, delta, spare);
    case BlankFastOp(delta) =>
    case FinishOp => FinishKeepsShape(s);
  }

  /** The obstack between the two halves of a call that finishes. */
  function Built(s: Obstack, c: Call, m: seq<Byte>): (t: Obstack)
    requires Shape(s) && Admits(s, c, m) && Finishes(c)
    ensures Shape(t)
  {
    hide Shape, Step, Enabled, Free;
    StepKeepsShape(s, FirstOp(c, m));
    Step(s, FirstOp(c, m))
  }

  /** What the call makes of the obstack. */
  function Effect(s: Obstack, c: Call, m: seq<Byte>): Obstack
    requires Shape(s) && Admits(s, c, m)
  {
    if Finishes(c) then Finish(Built(s, c, m)) else Step(s, FirstOp(c, m))
  }

  /** The address the call returns, if it returns one. */
  function Returned(s: Obstack, c: Call, m: seq<Byte>): Option<nat>
    requires Shape(s) && Admits(s, c, m)
  {
    if c.FinishCall? then Some(s.base)
    else if Finishes(c) then Some(Built(s, c, m).base)
    else None
  }

  lemma UsableIsInside(narrow: bool, mask: nat, h: Header, m: seq<Byte>)
    requires Usable(narrow, mask, Image(h, m))
    ensures Inside(h, |m|)
  {
    StartInside(narrow, mask, Image(h, m));
  }

  /** An admitted call that may overflow finds its spare chunk ready. */
  lemma SpareIsReady(o: ObstackControl, len: int, h: Header)
    requires o.Valid() && (Overflows(o.View(), len) ==> Fresh(o.View(), len, Image(h, o.memory[..])))
    ensures o.Ready(len, h)
  {
    if Overflows(o.View(), len) {
      UsableIsInside(o.narrow, o.alignmentMask, h, o.memory[..]);
    }
  }

  // ---- one call -----------------------------------------------------------------

  /** Perform one call with the macros for GNU C. */
  method GnuCall(o: ObstackControl, c: Call) returns (at: Option<nat>)
    requires o.Valid() && Admits(o.View(), c, o.memory[..])
    modifies o, o.memory
    ensures o.Valid()
    ensures o.View() == Effect(old(o.View()), c, old(o.memory[..]))
    ensures at == Returned(old(o.View()), c, old(o.memory[..]))
    ensures Kept(o.chunks, old(o.memory[..]), o.memory[..])
  {
    hide Kept, Images, Image, MakeRoom, Append, Finish, Free, Grow, Grow0, Blank, Shape, Fresh;
    at := None;
    match c
    case MakeRoomCall(len, h) =>
      SpareIsReady(o, len, h);
      o.GnuMakeRoom(len, h);
    case GrowCall(bytes, h) =>
      SpareIsReady(o, |bytes|, h);
      o.GnuGrow(bytes, h);
    case Grow0Call(bytes, h) =>
      SpareIsReady(o, |bytes| + 1, h);
      o.GnuGrow0(bytes, h);
    case Grow1Call(b, h) =>
      SpareIsReady(o, 1, h);
      o.GnuGrow1(b, h);
    case WordGrowCall(bytes, h) =>
      SpareIsReady(o, |bytes|, h);
      o.GnuWordGrow(bytes, h);
    case Grow1FastCall(b) => o.Grow1Fast(b);
    case WordGrowFastCall(bytes) => o.GnuWordGrowFast(bytes);
    case BlankCall(delta, h) =>
      SpareIsReady(o, delta, h);
      o.GnuBlank(delta, h);
    case BlankFastCall(delta) =>
      o.BlankFast(delta);
      KeptSame(o.chunks, o.memory[..]);
    case FinishCall =>
      var value := o.GnuFinish();
      at := Some(value);
      KeptSame(o.chunks, o.memory[..]);
    case AllocCall(delta, h) =>
      SpareIsReady(o, delta, h);
      var value := o.GnuAlloc(delta, h);
      at := Some(value);
    case CopyCall(bytes, h) =>
      SpareIsReady(o, |bytes|, h);
      var value := o.GnuCopy(bytes, h);
      at := Some(value);
    case Copy0Call(bytes, h) =>
      SpareIsReady(o, |bytes| + 1, h);
      var value := o.GnuCopy0(bytes, h);
      at := Some(value);
    case FreeCall(p, _) =>
      o.GnuFree(p);
      KeptSame(o.chunks, o.memory[..]);
  }

  /** Perform one call with the macros for other compilers. */
  method PortableCall(o: ObstackControl, c: Call) returns (at: Option<nat>)
    requires o.Valid() && Admits(o.View(), c, o.memory[..])
    modifies o, o.memory
    ensures o.Valid()
    ensures o.View() == Effect(old(o.View()), c, old(o.memory[..]))
    ensures at == Returned(old(o.View()), c, old(o.memory[..]))
    ensures Kept(o.chunks, old(o.memory[..]), o.memory[..])
  {
    hide Kept, Images, Image, MakeRoom, Append, Finish, Free, Grow, Grow0, Blank, Shape, Fresh;
    at := None;
    match c
    case MakeRoomCall(len, h) =>
      SpareIsReady(o, len, h);
      o.PortableMakeRoom(len, h);
    case GrowCall(bytes, h) =>
      SpareIsReady(o, |bytes|, h);
      o.PortableGrow(bytes, h);
    case Grow0Call(bytes, h) =>
      SpareIsReady(o, |bytes| + 1, h);
      o.PortableGrow0(bytes, h);
    case Grow1Call(b, h) =>
      SpareIsReady(o, 1, h);
      o.PortableGrow1(b, h);
    case WordGrowCall(bytes, h) =>
      SpareIsReady(o, |bytes|, h);
      o.PortableWordGrow(bytes, h);
    case Grow1FastCall(b) => o.Grow1Fast(b);
    case WordGrowFastCall(bytes) => o.PortableWordGrowFast(bytes);
    case BlankCall(delta, h) =>
      SpareIsReady(o, delta, h);
      o.PortableBlank(delta, h);
    case BlankFastCall(delta) =>
      o.BlankFast(delta);
      KeptSame(o.chunks, o.memory[..]);
    case FinishCall =>
      var value := o.PortableFinish();
      at := Some(value);
      KeptSame(o.chunks, o.memory[..]);
    case AllocCall(delta, h) =>
      SpareIsReady(o, delta, h);
      var value := o.PortableAlloc(delta, h);
      at := Some(value);
    case CopyCall(bytes, h) =>
      SpareIsReady(o, |bytes|, h);
      var value := o.PortableCopy(bytes, h);
      at := Some(value);
    case Copy0Call(bytes, h) =>
      SpareIsReady(o, |bytes| + 1, h);
      var value := o.PortableCopy0(bytes, h);
      at := Some(value);
    case FreeCall(p, _) =>
      o.PortableFree(p);
      KeptSame(o.chunks, o.memory[..]);
  }

  // ---- both versions side by side -------------------------------------------------

  /** Equal views are views of the same stretches of memory. */
  lemma SameHeaders(hs: seq<Header>, m: seq<Byte>, hs': seq<Header>, m': seq<Byte>)
    requires AllInside(hs, |m|) && AllInside(hs', |m'|) && Images(hs, m) == Images(hs', m')
    ensures hs == hs'
  {
    forall k | 0 <= k < |hs|
      ensures hs[k] == hs'[k]
    {
      assert Image(hs[k], m) == Images(hs, m)[k] == Image(hs'[k], m');
    }
  }

  lemma SameByte(h: Header, m: seq<Byte>, m': seq<Byte>, q: nat)
    requires Inside(h, |m|) && |m| == |m'| && Image(h, m) == Image(h, m') && h.addr <= q < h.limit
    ensures m[q] == m'[q]
  {
    assert Image(h, m).data[q - h.addr] == m[q] && Image(h, m').data[q - h.addr] == m'[q];
  }

  /** What agrees inside the chunks and was kept outside of them agrees everywhere. */
  lemma SameMemory(hs: seq<Header>, was: seq<Byte>, m: seq<Byte>, m': seq<Byte>)
    requires AllInside(hs, |was|) && Kept(hs, was, m) && Kept(hs, was, m') && Images(hs, m) == Images(hs, m')
    ensures m == m'
  {
    hide Images, Image;
    forall q | 0 <= q < |m|
      ensures m[q] == m'[q]
    {
      if Covered(hs, q) {
        var k :| 0 <= k < |hs| && hs[k].addr <= q < hs[k].limit;
        assert Inside(hs[k], |was|) && Images(hs, m)[k] == Images(hs, m')[k];
        SameByte(hs[k], m, m', q);
      }
    }
  }

  /** The two obstacks look alike, down to the last byte of memory. */
  predicate Alike(g: ObstackControl, p: ObstackControl)
    reads g, g.memory, p, p.memory
  {
    g.Valid() && p.Valid() && g.View() == p.View() && g.memory[..] == p.memory[..]
  }

  method BothCalls(g: ObstackControl, p: ObstackControl, c: Call) returns (at: Option<nat>, at': Option<nat>)
    requires g != p && g.memory != p.memory && Alike(g, p) && Admits(g.View(), c, g.memory[..])
    modifies g, g.memory, p, p.memory
    ensures Alike(g, p)
    ensures g.View() == Effect(old(g.View()), c, old(g.memory[..]))
    ensures at == at' == Returned(old(g.View()), c, old(g.memory[..]))
  {
    hide Images, Image, Shape, Kept, Effect, Admits, Returned;
    ghost var was := g.memory[..];
    at := GnuCall(g, c);
    at' := PortableCall(p, c);
    SameHeaders(g.chunks, g.memory[..], p.chunks, p.memory[..]);
    SameMemory(g.chunks, was, g.memory[..], p.memory[..]);
  }

  /** A call that was made: in which memory, and what it returned. */
  datatype Made = Made(call: Call, memory: seq<Byte>, at: Option<nat>)

  /** t is reached from s by these calls, with these results. */
  predicate Traced(s: Obstack, made: seq<Made>, t: Obstack)
    decreases |made|
  {
    if made == [] then t == s
    else
      var x := made[0];
      && Shape(s) && Admits(s, x.call, x.memory)
      && x.at == Returned(s, x.call, x.memory)
      && Traced(Effect(s, x.call, x.memory), made[1..], t)
  }

  lemma TracedNone(s: Obstack)
    ensures Traced(s, [], s)
  {}

  lemma {:induction false} TracedPlus(s: Obstack, made: seq<Made>, t: Obstack, x: Made)
    requires Traced(s, made, t) && Shape(t) && Admits(t, x.call, x.memory) && x.at == Returned(t, x.call, x.memory)
    ensures Traced(s, made + [x], Effect(t, x.call, x.memory))
    decreases |made|
  {
    hide Shape, Admits, Effect, Returned;
    if made == [] {
      assert made + [x] == [x] && [x][1..] == [];
    } else {
      TracedPlus(Effect(s, made[0].call, made[0].memory), made[1..], t, x);
      assert (made + [x])[1..] == made[1..] + [x];
    }
  }

  /** The calls made are the first of the given ones. */
  predicate Follows(made: seq<Made>, calls: seq<Call>) {
    |made| <= |calls| && forall i | 0 <= i < |made| :: made[i].call == calls[i]
  }

  /** From equal states, every sequence of calls, made with one version of the
      macros on g and with the other on p, returns the same addresses and ends
      in equal states: the same control block (apart from temp, which is no part
      of the view) and the same memory.  The run goes on until the sequence is
      used up or its next call is outside the macros' contract. */
  method Lockstep(g: ObstackControl, p: ObstackControl, calls: seq<Call>)
    returns (made: seq<Made>, made': seq<Made>)
    requires g != p && g.memory != p.memory && Alike(g, p)
    modifies g, g.memory, p, p.memory
    ensures Alike(g, p) && made == made'
    ensures Follows(made, calls) && Traced(old(g.View()), made, g.View())
    ensures |made| < |calls| ==> !Admits(g.View(), calls[|made|], g.memory[..])
  {
    hide Images, Image, Shape, Admits, Effect, Returned, Traced;
    made, made' := [], [];
    TracedNone(g.View());
    while |made| < |calls| && Admits(g.View(), calls[|made|], g.memory[..])
      invariant Alike(g, p) && made == made' && Follows(made, calls)
      invariant Traced(old(g.View()), made, g.View())
      decreases |calls| - |made|
    {
      var c, m, m' := calls[|made|], g.memory[..], p.memory[..];
      ghost var before := g.View();
      var at, at' := BothCalls(g, p, c);
      TracedPlus(old(g.View()), made, before, Made(c, m, at));
      made, made' := made + [Made(c, m, at)], made' + [Made(c, m', at')];
    }
  }

  // ---- either version against the stack of byte strings -----------------------------

  /** What a call asks of its caller on a represented stack. */
  predicate PermittedCall(s: Obstack, a: Stack, c: Call, m: seq<Byte>)
    requires Shape(s)
  {
    Permitted(s, a, FirstOp(c, m))
  }

  lemma PermittedIsAdmitted(s: Obstack, a: Stack, c: Call, m: seq<Byte>)
    requires Represents(s, a) && PermittedCall(s, a, c, m)
    ensures Admits(s, c, m)
  {
    StepRefines(s, a, FirstOp(c, m));
    RepresentsShape(Step(s, FirstOp(c, m)), StackStep(a, FirstOp(c, m), Answer(s, FirstOp(c, m))));
  }

  /** The address is that of the object on top of the stack. */
  predicate NamesTop(at: Option<nat>, b: Stack) {
    at.Some? ==> b.finished != [] && at.value == b.finished[|b.finished| - 1].addr
  }

  lemma FinishAfter(s: Obstack, a: Stack, op: Op)
    requires Represents(s, a) && Permitted(s, a, op)
    ensures Enabled(s, op) && Shape(Step(s, op)) && StackEnabled(a, op, Answer(s, op))
    ensures LegalRun(s, a, [op, FinishOp])
    ensures var t, b := Step(s, op), StackStep(a, op, Answer(s, op));
            var pushed := Stack(b.finished + [Obj(t.base, b.growing)], []);
            && Run(s, a, [op, FinishOp]) == Finish(t)
            && StackRun(s, a, [op, FinishOp]) == pushed
            && Represents(Finish(t), pushed)
  {
    RunOne(s, a, op);
    var t, b := Step(s, op), StackStep(a, op, Answer(s, op));
    RepresentsShape(t, b);
    hide Represents, Shape, Enabled, Finish, LegalRun, Run, StackRun;
    RunOne(t, b, FinishOp);
    RunConcat(s, a, [op], [FinishOp]);
    assert [op] + [FinishOp] == [op, FinishOp];
  }

  /** A permitted call is a run of its operations, and the address it returns is
      that of the object it has pushed. */
  lemma CallIsRun(s: Obstack, a: Stack, c: Call, m: seq<Byte>)
    requires Represents(s, a) && PermittedCall(s, a, c, m)
    ensures Admits(s, c, m) && LegalRun(s, a, Ops(c, m))
    ensures Run(s, a, Ops(c, m)) == Effect(s, c, m)
    ensures Represents(Effect(s, c, m), StackRun(s, a, Ops(c, m)))
    ensures NamesTop(Returned(s, c, m), StackRun(s, a, Ops(c, m)))
  {
    hide Represents, Permitted, Shape, Enabled, Finish, Step, Answer, LegalRun, Run, StackRun;
    RepresentsShape(s, a);
    PermittedIsAdmitted(s, a, c, m);
    if Finishes(c) {
      FinishAfter(s, a, FirstOp(c, m));
    } else {
      RunOne(s, a, FirstOp(c, m));
      if c.FinishCall? {
        AnswerToFinish(s);
      }
    }
  }

  lemma AnswerToFinish(s: Obstack)
    requires Shape(s)
    ensures Answer(s, FinishOp).at == s.base
  {}

  /** The stack after a permitted call. */
  function StackAfter(s: Obstack, a: Stack, c: Call, m: seq<Byte>): (b: Stack)
    requires Represents(s, a) && PermittedCall(s, a, c, m)
    ensures LegalRun(s, a, Ops(c, m)) && b == StackRun(s, a, Ops(c, m))
  {
    CallIsRun(s, a, c, m);
    StackAfterIsRun(s, a, c, m);
    var op := FirstOp(c, m);
    var b := StackStep(a, op, Answer(s, op));
    if Finishes(c) then Stack(b.finished + [Obj(Step(s, op).base, b.growing)], []) else b
  }

  lemma StackAfterIsRun(s: Obstack, a: Stack, c: Call, m: seq<Byte>)
    requires Represents(s, a) && PermittedCall(s, a, c, m)
    ensures Enabled(s, FirstOp(c, m)) && StackEnabled(a, FirstOp(c, m), Answer(s, FirstOp(c, m)))
    ensures LegalRun(s, a, Ops(c, m))
    ensures var b := StackStep(a, FirstOp(c, m), Answer(s, FirstOp(c, m)));
            StackRun(s, a, Ops(c, m))
            == if Finishes(c) then Stack(b.finished + [Obj(Step(s, FirstOp(c, m)).base, b.growing)], []) else b
  {
    hide Represents, Permitted, Shape, Enabled, Step, Answer, StackStep, LegalRun, Run, StackRun;
    RepresentsShape(s, a);
    if Finishes(c) {
      FinishAfter(s, a, FirstOp(c, m));
    } else {
      RunOne(s, a, FirstOp(c, m));
    }
  }

  // ---- what the calls mean to their users ----------------------------------------

  /** The growing object with delta unspecified bytes more, or -delta fewer. */
  predicate Resized(before: seq<Byte>, delta: int, after: seq<Byte>) {
    && |after| == |before| + delta
    && (before <= after || after <= before)
  }

  /** What the manual says that a call does to the stack and returns. */
  predicate Means(a: Stack, c: Call, at: Option<nat>, b: Stack) {
    match c
    case MakeRoomCall(_, _) => at == None && b == a
    case GrowCall(bytes, _) => at == None && b == Stack(a.finished, a.growing + bytes)
    case Grow0Call(bytes, _) => at == None && b == Stack(a.finished, a.growing + bytes + [0])
    case Grow1Call(x, _) => at == None && b == Stack(a.finished, a.growing + [x])
    case WordGrowCall(bytes, _) => at == None && b == Stack(a.finished, a.growing + bytes)
    case Grow1FastCall(x) => at == None && b == Stack(a.finished, a.growing + [x])
    case WordGrowFastCall(bytes) => at == None && b == Stack(a.finished, a.growing + bytes)
    case BlankCall(delta, _) => at == None && b.finished == a.finished && Resized(a.growing, delta, b.growing)
    case BlankFastCall(delta) => at == None && b.finished == a.finished && Resized(a.growing, delta, b.growing)
    case FinishCall => at.Some? && b == Stack(a.finished + [Obj(at.value, a.growing)], [])
    case AllocCall(delta, _) =>
      && at.Some? && b.growing == [] && b.finished != []
      && var top := b.finished[|b.finished| - 1];
         b.finished == a.finished + [top] && top.addr == at.value && Resized(a.growing, delta, top.bytes)
    case CopyCall(bytes, _) => at.Some? && b == Stack(a.finished + [Obj(at.value, a.growing + bytes)], [])
    case Copy0Call(bytes, _) => at.Some? && b == Stack(a.finished + [Obj(at.value, a.growing + bytes + [0])], [])
    case FreeCall(_, victim) => at == None && victim <= |a.finished| && b == Stack(a.finished[..victim], [])
  }

  lemma StackAfterMeans(s: Obstack, a: Stack, c: Call, m: seq<Byte>)
    requires Represents(s, a) && PermittedCall(s, a, c, m)
    ensures Admits(s, c, m) && Means(a, c, Returned(s, c, m), StackAfter(s, a, c, m))
  {
    hide Represents, Shape, Fresh, Exposed, Grow, Grow0, MakeRoom, Append, Blank, BlankFast, Finish, Free;
    hide LegalRun, StackRun, Image;
    CallIsRun(s, a, c, m);
    StackAfterIsRun(s, a, c, m);
  }

  /** Every permitted call does to the stack what its macro is documented to do;
      the address it returns, if any, is that of the object it has pushed;
      obstack_make_room leaves the room asked for, and obstack_free is given the
      address of the object it frees. */
  lemma CallMeans(s: Obstack, a: Stack, c: Call, m: seq<Byte>)
    requires Represents(s, a) && PermittedCall(s, a, c, m)
    ensures Admits(s, c, m)
    ensures Represents(Effect(s, c, m), StackAfter(s, a, c, m))
    ensures Means(a, c, Returned(s, c, m), StackAfter(s, a, c, m))
    ensures NamesTop(Returned(s, c, m), StackAfter(s, a, c, m))
    ensures c.MakeRoomCall? ==> Effect(s, c, m).free + c.len <= Effect(s, c, m).limit
    ensures c.FreeCall? && c.victim < |a.finished| ==> c.p == a.finished[c.victim].addr
  {
    StackAfterMeans(s, a, c, m);
    CallIsRun(s, a, c, m);
    RepresentsShape(s, a);
    hide Represents, Shape, Fresh, Means, NamesTop, LegalRun, Run, StackRun, Usable, Apart, NewChunk;
    if c.MakeRoomCall? {
      MakeRoomKeepsShape(s, c.len, Image(c.spare, m));
    }
  }

  /** There is room for len more bytes, or a chunk to be had in which there is. */
  predicate Suits(s: Obstack, len: int, h: Header, m: seq<Byte>)
    requires Shape(s)
  {
    s.free + len <= s.limit || Fresh(s, len, Image(h, m))
  }

  /** The calls that are permitted, one by one. */
  lemma PermittedExactly(s: Obstack, a: Stack, c: Call, m: seq<Byte>)
    requires Shape(s)
    ensures PermittedCall(s, a, c, m) <==>
              match c {
                case MakeRoomCall(len, h) => Suits(s, len, h, m)
                case GrowCall(bytes, h) => Suits(s, |bytes|, h, m)
                case Grow0Call(bytes, h) => Suits(s, |bytes| + 1, h, m)
                case Grow1Call(_, h) => Suits(s, 1, h, m)
                case WordGrowCall(bytes, h) => Suits(s, |bytes|, h, m)
                case Grow1FastCall(_) => s.free + 1 <= s.limit
                case WordGrowFastCall(bytes) => s.free + |bytes| <= s.limit
                case BlankCall(delta, h) => s.base <= s.free + delta && Suits(s, delta, h, m)
                case BlankFastCall(delta) => s.base <= s.free + delta <= s.limit
                case FinishCall => true
                case AllocCall(delta, h) => s.base <= s.free + delta && Suits(s, delta, h, m)
                case CopyCall(bytes, h) => Suits(s, |bytes|, h, m)
                case Copy0Call(bytes, h) => Suits(s, |bytes| + 1, h, m)
                case FreeCall(p, victim) =>
                  if victim < |a.finished| then p == a.finished[victim].addr
                  else victim == |a.finished| && p == s.base
              }
  {
    hide Shape, Fresh, Image;
  }

  /** The stacks a run goes through, each related to the next by its call. */
  predicate Passes(made: seq<Made>, through: seq<Stack>) {
    && |through| == |made| + 1
    && forall i | 0 <= i < |made| :: Means(through[i], made[i].call, made[i].at, through[i + 1])
  }

  /** Starting from stack a, these calls with these results make it b. */
  ghost predicate Leads(a: Stack, made: seq<Made>, b: Stack) {
    exists through | Passes(made, through) :: through[0] == a && through[|made|] == b
  }

  lemma LeadsNone(a: Stack)
    ensures Leads(a, [], a)
  {
    assert Passes([], [a]);
  }

  lemma LeadsPlus(a: Stack, made: seq<Made>, b: Stack, x: Made, c: Stack)
    requires Leads(a, made, b) && Means(b, x.call, x.at, c)
    ensures Leads(a, made + [x], c)
  {
    hide Means;
    var through :| Passes(made, through) && through[0] == a && through[|made|] == b;
    var longer := through + [c];
    assert Passes(made + [x], longer) by {
      forall i | 0 <= i < |made + [x]|
        ensures Means(longer[i], (made + [x])[i].call, (made + [x])[i].at, longer[i + 1])
      {
        if i < |made| {
          assert Means(through[i], made[i].call, made[i].at, through[i + 1]);
        }
      }
    }
  }

  // ---- whole runs --------------------------------------------------------------------

  /** The operations that these calls stood for. */
  function AllOps(made: seq<Made>): seq<Op> {
    if made == [] then []
    else AllOps(made[..|made| - 1]) + Ops(made[|made| - 1].call, made[|made| - 1].memory)
  }

  lemma AllOpsPlus(made: seq<Made>, x: Made)
    ensures AllOps(made + [x]) == AllOps(made) + Ops(x.call, x.memory)
  {
    assert (made + [x])[..|made|] == made;
  }

  /** These calls were a legal run from s, with stack a, to t, with stack b. */
  ghost predicate Arrived(s: Obstack, a: Stack, made: seq<Made>, t: Obstack, b: Stack)
    requires Represents(s, a)
  {
    && LegalRun(s, a, AllOps(made))
    && t == Run(s, a, AllOps(made)) && b == StackRun(s, a, AllOps(made))
    && Represents(t, b)
  }

  lemma ArrivedNone(s: Obstack, a: Stack)
    requires Represents(s, a)
    ensures Arrived(s, a, [], s, a)
  {}

  lemma ArrivedPlus(s: Obstack, a: Stack, made: seq<Made>, t: Obstack, b: Stack, x: Made)
    requires Represents(s, a) && Arrived(s, a, made, t, b) && PermittedCall(t, b, x.call, x.memory)
    ensures Admits(t, x.call, x.memory)
    ensures Arrived(s, a, made + [x], Effect(t, x.call, x.memory), StackAfter(t, b, x.call, x.memory))
  {
    hide Represents, Shape, PermittedCall, Admits, Effect, LegalRun, Run, StackRun, Ops, AllOps;
    AllOpsPlus(made, x);
    CallIsRun(t, b, x.call, x.memory);
    RunConcat(s, a, AllOps(made), Ops(x.call, x.memory));
  }

  /** One permitted call with either version of the macros. */
  method MacroCall(o: ObstackControl, gnu: bool, c: Call, a: Stack) returns (at: Option<nat>, b: Stack)
    requires o.Valid() && Represents(o.View(), a) && PermittedCall(o.View(), a, c, o.memory[..])
    modifies o, o.memory
    ensures o.Valid() && Admits(old(o.View()), c, old(o.memory[..]))
    ensures o.View() == Effect(old(o.View()), c, old(o.memory[..]))
    ensures at == Returned(old(o.View()), c, old(o.memory[..]))
    ensures b == StackAfter(old(o.View()), a, c, old(o.memory[..]))
    ensures Represents(o.View(), b) && NamesTop(at, b) && Means(a, c, at, b)
  {
    hide Represents, Shape, PermittedCall, Admits, Effect, Returned, LegalRun, Run, StackRun, Ops, NamesTop, Means;
    CallMeans(o.View(), a, c, o.memory[..]);
    b := StackAfter(o.View(), a, c, o.memory[..]);
    if gnu {
      at := GnuCall(o, c);
    } else {
      at := PortableCall(o, c);
    }
  }

  /** Permitted calls made with either version of the macros take the obstack to
      the stack the specification arrives at.  The run goes on until the calls
      are used up or the next one is not permitted. */
  method MacroRun(o: ObstackControl, gnu: bool, calls: seq<Call>, a: Stack) returns (made: seq<Made>, b: Stack)
    requires o.Valid() && Represents(o.View(), a)
    modifies o, o.memory
    ensures o.Valid() && Follows(made, calls)
    ensures Traced(old(o.View()), made, o.View()) && Arrived(old(o.View()), a, made, o.View(), b)
    ensures Leads(a, made, b)
    ensures |made| < |calls| ==> !PermittedCall(o.View(), b, calls[|made|], o.memory[..])
  {
    hide Represents, Shape, PermittedCall, Admits, Effect, Returned, LegalRun, Run, StackRun, Ops, AllOps;
    hide Arrived, Traced, Leads, Means;
    made, b := [], a;
    ArrivedNone(o.View(), a);
    TracedNone(o.View());
    LeadsNone(a);
    while |made| < |calls| && PermittedCall(o.View(), b, calls[|made|], o.memory[..])
      invariant o.Valid() && Follows(made, calls)
      invariant Represents(o.View(), b) && Arrived(old(o.View()), a, made, o.View(), b)
      invariant Traced(old(o.View()), made, o.View()) && Leads(a, made, b)
      decreases |calls| - |made|
    {
      var c, m := calls[|made|], o.memory[..];
      ghost var before, top := o.View(), b;
      var at;
      at, b := MacroCall(o, gnu, c, b);
      ArrivedPlus(old(o.View()), a, made, before, top, Made(c, m, at));
      TracedPlus(old(o.View()), made, before, Made(c, m, at));
      LeadsPlus(a, made, top, Made(c, m, at), b);
      made := made + [Made(c, m, at)];
    }
  }

  /** The same from obstack_begin on. */
  method RunFromBegin(narrow: bool, mask: nat, memory: array<Byte>, first: Header, gnu: bool, calls: seq<Call>)
    returns (o: ObstackControl, made: seq<Made>, b: Stack)
    requires Inside(first, memory.Length) && Usable(narrow, mask, Image(first, memory[..]))
    modifies memory
    ensures fresh(o) && o.memory == memory && o.Valid() && Follows(made, calls)
    ensures var s := Begin(narrow, mask, old(Image(first, memory[..])));
            Represents(s, EMPTY) && Traced(s, made, o.View()) && Arrived(s, EMPTY, made, o.View(), b)
    ensures Leads(EMPTY, made, b)
    ensures |made| < |calls| ==> !PermittedCall(o.View(), b, calls[|made|], o.memory[..])
  {
    o := new ObstackControl(narrow, mask, memory, first);
    BeginRepresentsEmpty(narrow, mask, Image(first, memory[..]));
    hide Represents, Shape, PermittedCall, Arrived, Traced, Leads, Usable, Begin;
    made, b := MacroRun(o, gnu, calls, EMPTY);
  }
}
