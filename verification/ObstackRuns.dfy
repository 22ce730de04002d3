/** Theorems about every run of the obstack macros, from obstack_begin on. */
module ObstackRuns {
  import opened ObstackSpec
  import opened ObstackRefinement

  // ---- refinement, step by step and over whole runs ---------------------------

  /** What the macros ask of their caller and of the chunk allocator. */
  predicate Permitted(s: Obstack, a: Stack, op: Op)
    requires Shape(s)
  {
    match op
    case FreeOp(p, victim) => victim <= |a.finished| && p == AddressOf(s, a, victim)
    case _ => Enabled(s, op)
  }

  /** What the call returns or exposes. */
  function Answer(s: Obstack, op: Op): Reply
    requires Shape(s) && Enabled(s, op)
  {
    match op
    case BlankOp(delta, spare) =>
      MakeRoomKeepsShape(s, delta, spare);
      Reply(s.base, Exposed(MakeRoom(s, delta, spare), delta))
    case BlankFastOp(delta) => Reply(s.base, Exposed(s, delta))
    case _ => Reply(s.base, [])
  }

  lemma PermittedIsEnabled(s: Obstack, a: Stack, op: Op)
    requires Represents(s, a) && Permitted(s, a, op)
    ensures Enabled(s, op)
    ensures StackEnabled(a, op, Answer(s, op))
  {
    var homes :| Located(s, a, homes);
    match op
    case FreeOp(p, victim) => FreeChunks(s, a, homes, victim);
    case BlankOp(delta, spare) => MakeRoomKeepsShape(s, delta, spare);
    case _ =>
  }

  lemma GrowLocated(s: Obstack, a: Stack, homes: seq<nat>, bytes: seq<Byte>, spare: Chunk)
    requires Located(s, a, homes) && (Overflows(s, |bytes|) ==> Fresh(s, |bytes|, spare))
    ensures Located(Grow(s, bytes, spare), a.(growing := a.growing + bytes), homes)
  {
    MakeRoomKeepsShape(s, |bytes|, spare);
    MakeRoomLocated(s, a, homes, |bytes|, spare);
    AppendLocated(MakeRoom(s, |bytes|, spare), a, homes, bytes);
  }

  lemma Grow0Located(s: Obstack, a: Stack, homes: seq<nat>, bytes: seq<Byte>, spare: Chunk)
    requires Located(s, a, homes) && (Overflows(s, |bytes| + 1) ==> Fresh(s, |bytes| + 1, spare))
    ensures Located(Grow0(s, bytes, spare), a.(growing := a.growing + bytes + [0]), homes)
  {
    MakeRoomKeepsShape(s, |bytes| + 1, spare);
    MakeRoomLocated(s, a, homes, |bytes| + 1, spare);
    var roomy := MakeRoom(s, |bytes| + 1, spare);
    AppendLocated(roomy, a, homes, bytes);
    AppendLocated(Append(roomy, bytes), a.(growing := a.growing + bytes), homes, [0]);
  }

  lemma BlankLocated(s: Obstack, a: Stack, homes: seq<nat>, delta: int, spare: Chunk)
    requires Located(s, a, homes) && s.base <= s.free + delta && (Overflows(s, delta) ==> Fresh(s, delta, spare))
    ensures Shape(MakeRoom(s, delta, spare)) && !Overflows(MakeRoom(s, delta, spare), delta)
    ensures Located(Blank(s, delta, spare),
                    a.(growing := Resize(a.growing, delta, Exposed(MakeRoom(s, delta, spare), delta))), homes)
  {
    MakeRoomKeepsShape(s, delta, spare);
    MakeRoomLocated(s, a, homes, delta, spare);
    BlankFastLocated(MakeRoom(s, delta, spare), a, homes, delta);
  }

  /** Every permitted call does to the represented stack what the specification says. */
  lemma StepRefines(s: Obstack, a: Stack, op: Op)
    requires Represents(s, a) && Permitted(s, a, op)
    ensures Enabled(s, op) && StackEnabled(a, op, Answer(s, op))
    ensures Represents(Step(s, op), StackStep(a, op, Answer(s, op)))
  {
    PermittedIsEnabled(s, a, op);
    var homes :| Located(s, a, homes);
    match op
    case MakeRoomOp(len, spare) => MakeRoomLocated(s, a, homes, len, spare);
    case GrowOp(bytes, spare) => GrowLocated(s, a, homes, bytes, spare);
    case Grow0Op(bytes, spare) => Grow0Located(s, a, homes, bytes, spare);
    case GrowFastOp(bytes) => AppendLocated(s, a, homes, bytes);
    case BlankOp(delta, spare) => BlankLocated(s, a, homes, delta, spare);
    case BlankFastOp(delta) => BlankFastLocated(s, a, homes, delta);
    case FinishOp => FinishLocated(s, a, homes);
    case FreeOp(p, victim) => FreeLocated(s, a, homes, victim);
  }

  ghost predicate LegalRun(s: Obstack, a: Stack, ops: seq<Op>)
    requires Represents(s, a)
    decreases |ops|
  {
    ops == [] ||
    (Permitted(s, a, ops[0]) &&
     (StepRefines(s, a, ops[0]);
      LegalRun(Step(s, ops[0]), StackStep(a, ops[0], Answer(s, ops[0])), ops[1..])))
  }

  /** The obstack after a run. */
  ghost function Run(s: Obstack, a: Stack, ops: seq<Op>): Obstack
    requires Represents(s, a) && LegalRun(s, a, ops)
    decreases |ops|
  {
    if ops == [] then s
    else
      StepRefines(s, a, ops[0]);
      Run(Step(s, ops[0]), StackStep(a, ops[0], Answer(s, ops[0])), ops[1..])
  }

  /** The specified stack after a run. */
  ghost function StackRun(s: Obstack, a: Stack, ops: seq<Op>): Stack
    requires Represents(s, a) && LegalRun(s, a, ops)
    decreases |ops|
  {
    if ops == [] then a
    else
      StepRefines(s, a, ops[0]);
      StackRun(Step(s, ops[0]), StackStep(a, ops[0], Answer(s, ops[0])), ops[1..])
  }

  lemma {:induction false} RunRefines(s: Obstack, a: Stack, ops: seq<Op>)
    requires Represents(s, a) && LegalRun(s, a, ops)
    ensures Represents(Run(s, a, ops), StackRun(s, a, ops))
    decreases |ops|
  {
    if ops != [] {
      StepRefines(s, a, ops[0]);
      RunRefines(Step(s, ops[0]), StackStep(a, ops[0], Answer(s, ops[0])), ops[1..]);
    }
  }

  lemma RepresentsShape(s: Obstack, a: Stack)
    requires Represents(s, a)
    ensures Shape(s)
  {}

  /** A run after a run is one run. */
  lemma {:induction false} RunConcat(s: Obstack, a: Stack, x: seq<Op>, y: seq<Op>)
    requires Represents(s, a) && LegalRun(s, a, x)
    requires Represents(Run(s, a, x), StackRun(s, a, x)) && LegalRun(Run(s, a, x), StackRun(s, a, x), y)
    ensures LegalRun(s, a, x + y)
    ensures Run(s, a, x + y) == Run(Run(s, a, x), StackRun(s, a, x), y)
    ensures StackRun(s, a, x + y) == StackRun(Run(s, a, x), StackRun(s, a, x), y)
    decreases |x|
  {
    hide Represents, Permitted, Step, StackStep, Answer, Enabled, Shape;
    if x == [] {
      assert x + y == y;
    } else {
      RepresentsShape(s, a);
      StepRefines(s, a, x[0]);
      assert (x + y)[0] == x[0] && (x + y)[1..] == x[1..] + y;
      RunConcat(Step(s, x[0]), StackStep(a, x[0], Answer(s, x[0])), x[1..], y);
    }
  }

  lemma RunOne(s: Obstack, a: Stack, op: Op)
    requires Represents(s, a) && Permitted(s, a, op)
    ensures Enabled(s, op) && StackEnabled(a, op, Answer(s, op))
    ensures LegalRun(s, a, [op])
    ensures Run(s, a, [op]) == Step(s, op) && StackRun(s, a, [op]) == StackStep(a, op, Answer(s, op))
    ensures Represents(Step(s, op), StackStep(a, op, Answer(s, op)))
  {
    hide Represents, Permitted, Step, StackStep, Answer;
    StepRefines(s, a, op);
    assert [op][1..] == [];
  }

  const EMPTY := Stack([], [])

  lemma BeginRepresentsEmpty(narrow: bool, mask: nat, c: Chunk)
    requires Usable(narrow, mask, c)
    ensures Represents(Begin(narrow, mask, c), EMPTY)
  {
    assert Located(Begin(narrow, mask, c), EMPTY, []);
  }

  /** Every run from a fresh obstack represents the stack the specification arrives at. */
  lemma ReachableRefines(narrow: bool, mask: nat, c: Chunk, ops: seq<Op>)
    requires Usable(narrow, mask, c)
    ensures Represents(Begin(narrow, mask, c), EMPTY)
    ensures LegalRun(Begin(narrow, mask, c), EMPTY, ops) ==>
              Represents(Run(Begin(narrow, mask, c), EMPTY, ops), StackRun(Begin(narrow, mask, c), EMPTY, ops))
  {
    BeginRepresentsEmpty(narrow, mask, c);
    if LegalRun(Begin(narrow, mask, c), EMPTY, ops) {
      RunRefines(Begin(narrow, mask, c), EMPTY, ops);
    }
  }
}
