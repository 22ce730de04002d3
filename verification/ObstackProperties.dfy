/** What the layout invariant means for the users of an obstack.  Together with
    ObstackRuns.ReachableRefines these hold in every reachable state. */
module ObstackProperties {
  import opened Alignment
  import opened ObstackSpec
  import opened ObstackRefinement
  import opened ObstackRuns

  /** Some chunk of the obstack holds the bytes of o at its address. */
  predicate Stored(s: Obstack, o: Obj) {
    exists k | 0 <= k < |s.chunks| :: Holds(s.chunks[k], o)
  }

  lemma HomeIsOwner(s: Obstack, a: Stack, homes: seq<nat>, i: nat, k: nat)
    requires Located(s, a, homes) && i < |homes| && k < |s.chunks|
    ensures homes[i] == k <==> Owns(s.chunks[k], a.finished[i].addr)
  {
    VictimOwned(s, a, homes, i);
    if homes[i] < k {
      OwnerIsUnique(s, a.finished[i].addr, homes[i], k);
    } else if k < homes[i] {
      OwnerIsUnique(s, a.finished[i].addr, k, homes[i]);
    }
  }

  // ---- disjoint, aligned, in place --------------------------------------------

  /** Live objects are stored intact, never overlap each other, and never
      overlap the room the growing object has in the current chunk. */
  lemma ObjectsAreDisjoint(s: Obstack, a: Stack, i: nat, j: nat)
    requires Represents(s, a) && i < j <= |a.finished|
    ensures Stored(s, a.finished[i])
    ensures var o := a.finished[i];
            if j < |a.finished| then
              var u := a.finished[j];
              o.bytes == [] || u.bytes == []
              || o.addr + |o.bytes| <= u.addr || u.addr + |u.bytes| <= o.addr
            else
              o.bytes == [] || s.base == s.limit
              || o.addr + |o.bytes| <= s.base || s.limit <= o.addr
  {
    var homes :| Located(s, a, homes);
    assert Sits(s, a.finished, homes, i);
    var k, m := homes[i], HomeOf(s, homes, j);
    VictimOwned(s, a, homes, j);
    if j < |homes| {
      assert Sits(s, a.finished, homes, j);
    }
    if k == m {
      FloorAbove(s, a, homes, i, j, k);
    } else {
      assert Apart(s.chunks[k], s.chunks[m]);
    }
  }

  /** Within a chunk the stack order is the address order. */
  lemma StackOrderIsAddressOrder(s: Obstack, a: Stack, i: nat, j: nat, k: nat)
    requires Represents(s, a) && i < j < |a.finished| && k < |s.chunks|
    requires Owns(s.chunks[k], a.finished[i].addr) && Owns(s.chunks[k], a.finished[j].addr)
    ensures a.finished[i].addr + |a.finished[i].bytes| <= a.finished[j].addr
  {
    var homes :| Located(s, a, homes);
    HomeIsOwner(s, a, homes, i, k);
    HomeIsOwner(s, a, homes, j, k);
    assert Sits(s, a.finished, homes, j);
    FloorAbove(s, a, homes, i, j, k);
  }

  /** Every non-empty object, finished or growing, starts at an aligned address;
      an unaligned base is a chunk limit, where no byte fits. */
  lemma ObjectsAreAligned(s: Obstack, a: Stack)
    requires Represents(s, a)
    ensures forall i | 0 <= i < |a.finished| && a.finished[i].bytes != [] :: Aligned(a.finished[i].addr, s.mask)
    ensures a.growing != [] ==> Aligned(s.base, s.mask)
    ensures !Aligned(s.base, s.mask) ==> forall n | n > 0 :: Overflows(s, n)
  {
    var homes :| Located(s, a, homes);
    forall i | 0 <= i < |homes| && a.finished[i].bytes != []
      ensures Aligned(a.finished[i].addr, s.mask)
    {
      assert Sits(s, a.finished, homes, i);
      FloorSeat(s, a, homes, i, homes[i]);
    }
    FloorSeat(s, a, homes, |homes|, |s.chunks| - 1);
  }

  /** Finishing puts the next object at the least aligned address that is not
      below the finished one, or at the chunk limit if that lies beyond: it never
      cuts data, never pads more than it must, and does so under both alignment
      strategies. */
  lemma FinishCutsOnlyPadding(s: Obstack, a: Stack)
    requires Represents(s, a)
    ensures var q := Finish(s).free;
            && Finish(s).base == q
            && s.free <= q <= s.limit && q <= s.free + s.mask
            && (q == s.limit || Aligned(q, s.mask))
            && forall r: int :: s.free <= r && Aligned(r, s.mask) ==> q <= r
    ensures Finish(s.(narrow := true)).(narrow := false) == Finish(s.(narrow := false))
  {
    var homes :| Located(s, a, homes);
    FinishShape(s, a, homes);
    FloorSeat(s, a, homes, |homes|, |s.chunks| - 1);
    hide Start, Floor, Growing, Apart;
    NextSeat(s.mask, s.limit, s.free);
    BptrAlignIsLeast(0, s.free, s.mask);
    EndOfObject(true, s.mask, s.base, s.free, s.limit);
    EndOfObject(false, s.mask, s.base, s.free, s.limit);
  }

  // ---- finished objects never change ------------------------------------------

  /** Object i is not freed anywhere in the run. */
  ghost predicate Survives(s: Obstack, a: Stack, ops: seq<Op>, i: nat)
    requires Represents(s, a) && LegalRun(s, a, ops)
    decreases |ops|
  {
    i < |a.finished| &&
    (ops == [] ||
     (StepRefines(s, a, ops[0]);
      Survives(Step(s, ops[0]), StackStep(a, ops[0], Answer(s, ops[0])), ops[1..], i)))
  }

  /** Until it is freed, an object keeps its address and its bytes, whatever
      else happens and however many chunks come and go. */
  lemma {:induction false} FinishedObjectsStay(s: Obstack, a: Stack, ops: seq<Op>, i: nat)
    requires Represents(s, a) && LegalRun(s, a, ops) && Survives(s, a, ops, i)
    ensures i < |StackRun(s, a, ops).finished|
    ensures StackRun(s, a, ops).finished[i] == a.finished[i]
    ensures Stored(Run(s, a, ops), a.finished[i])
    decreases |ops|
  {
    hide Floor, Sits, Growing, NoneEmpty, Usable;
    if ops == [] {
      ObjectsAreDisjoint(s, a, i, |a.finished|);
    } else {
      StepRefines(s, a, ops[0]);
      FinishedObjectsStay(Step(s, ops[0]), StackStep(a, ops[0], Answer(s, ops[0])), ops[1..], i);
    }
  }

  // ---- giving chunks back -------------------------------------------------------

  /** No live object, not even an empty one, has its address in the current chunk. */
  predicate TopIsUnused(s: Obstack, a: Stack)
    requires s.chunks != []
  {
    forall i | 0 <= i < |a.finished| :: !Owns(Top(s), a.finished[i].addr)
  }

  /** An overflow gives the old chunk back only if no live object lies in it;
      while maybe_empty_object is clear, it does so exactly then. */
  lemma ChunkDroppedOnlyIfUnused(s: Obstack, a: Stack)
    requires Represents(s, a)
    ensures Drops(s) ==> TopIsUnused(s, a)
    ensures !s.maybeEmpty ==> (Drops(s) <==> TopIsUnused(s, a))
  {
    var homes :| Located(s, a, homes);
    var k := |s.chunks| - 1;
    forall i | 0 <= i < |homes|
      ensures homes[i] == k <==> Owns(Top(s), a.finished[i].addr)
    {
      HomeIsOwner(s, a, homes, i, k);
    }
    if Drops(s) {
      DropIsSafe(s, a, homes);
    }
  }

  /** If maybe_empty_object is set, the current chunk does hold an empty object. */
  predicate FlagBacked(s: Obstack, a: Stack)
    requires s.chunks != []
  {
    s.maybeEmpty ==> exists i | 0 <= i < |a.finished| :: Owns(Top(s), a.finished[i].addr) && a.finished[i].bytes == []
  }

  lemma MakeRoomBacked(s: Obstack, a: Stack, len: int, spare: Chunk)
    requires Shape(s) && FlagBacked(s, a) && (Overflows(s, len) ==> Fresh(s, len, spare))
    ensures MakeRoom(s, len, spare).chunks != [] && FlagBacked(MakeRoom(s, len, spare), a)
  {
    MakeRoomKeepsShape(s, len, spare);
  }

  lemma SameTopBacked(s: Obstack, a: Stack, t: Obstack, b: Stack)
    requires s.chunks != [] && t.chunks != [] && FlagBacked(s, a) && t.maybeEmpty == s.maybeEmpty
    requires Top(t).addr == Top(s).addr && Top(t).limit == Top(s).limit && a.finished <= b.finished
    ensures FlagBacked(t, b)
  {
    if t.maybeEmpty {
      var i :| 0 <= i < |a.finished| && Owns(Top(s), a.finished[i].addr) && a.finished[i].bytes == [];
      assert b.finished[i] == a.finished[i];
    }
  }

  lemma FinishBacked(s: Obstack, a: Stack)
    requires Represents(s, a) && FlagBacked(s, a)
    ensures FlagBacked(Finish(s), Stack(a.finished + [Obj(s.base, a.growing)], []))
  {
    var b := Stack(a.finished + [Obj(s.base, a.growing)], []);
    StartInside(s.narrow, s.mask, Top(s));
    if s.free == s.base {
      assert b.finished[|a.finished|] == Obj(s.base, []);
    } else {
      SameTopBacked(s, a, Finish(s), b);
    }
  }

  lemma AppendBacked(s: Obstack, a: Stack, bytes: seq<Byte>)
    requires Shape(s) && FlagBacked(s, a) && !Overflows(s, |bytes|)
    ensures Append(s, bytes).chunks != [] && FlagBacked(Append(s, bytes), a)
  {
    SameTopBacked(s, a, Append(s, bytes), a);
  }

  lemma GrowBacked(s: Obstack, a: Stack, bytes: seq<Byte>, spare: Chunk)
    requires Shape(s) && FlagBacked(s, a) && (Overflows(s, |bytes|) ==> Fresh(s, |bytes|, spare))
    ensures Shape(Grow(s, bytes, spare)) && FlagBacked(Grow(s, bytes, spare), a)
  {
    hide Append, MakeRoom, FlagBacked, Usable, Apart;
    MakeRoomKeepsShape(s, |bytes|, spare);
    MakeRoomBacked(s, a, |bytes|, spare);
    AppendKeepsShape(MakeRoom(s, |bytes|, spare), bytes);
    AppendBacked(MakeRoom(s, |bytes|, spare), a, bytes);
  }

  lemma Grow0Backed(s: Obstack, a: Stack, bytes: seq<Byte>, spare: Chunk)
    requires Shape(s) && FlagBacked(s, a) && (Overflows(s, |bytes| + 1) ==> Fresh(s, |bytes| + 1, spare))
    ensures Grow0(s, bytes, spare).chunks != [] && FlagBacked(Grow0(s, bytes, spare), a)
  {
    hide Write, MakeRoom, FlagBacked, Usable, Apart;
    MakeRoomKeepsShape(s, |bytes| + 1, spare);
    MakeRoomBacked(s, a, |bytes| + 1, spare);
    var roomy := MakeRoom(s, |bytes| + 1, spare);
    AppendKeepsShape(roomy, bytes);
    AppendBacked(roomy, a, bytes);
    AppendBacked(Append(roomy, bytes), a, [0]);
  }

  lemma BlankBacked(s: Obstack, a: Stack, delta: int, spare: Chunk)
    requires Shape(s) && FlagBacked(s, a) && s.base <= s.free + delta
    requires Overflows(s, delta) ==> Fresh(s, delta, spare)
    ensures Blank(s, delta, spare).chunks != [] && FlagBacked(Blank(s, delta, spare), a)
  {
    hide MakeRoom, Usable, Apart;
    MakeRoomKeepsShape(s, delta, spare);
    MakeRoomBacked(s, a, delta, spare);
  }

  lemma StepKeepsFlagBacked(s: Obstack, a: Stack, op: Op)
    requires Represents(s, a) && Permitted(s, a, op) && FlagBacked(s, a) && !op.FreeOp?
    ensures Enabled(s, op) && StackEnabled(a, op, Answer(s, op)) && Step(s, op).chunks != []
    ensures FlagBacked(Step(s, op), StackStep(a, op, Answer(s, op)))
  {
    StepRefines(s, a, op);
    hide Represents, Answer, Fresh, MakeRoom, Append, Grow, Grow0, Blank, Finish, Usable, Apart, Resize;
    if op.FinishOp? {
      FinishBacked(s, a);
    } else {
      StepBacked(s, a, op);
      SameFinishedBacked(Step(s, op), a, StackStep(a, op, Answer(s, op)));
    }
  }

  lemma SameFinishedBacked(s: Obstack, a: Stack, b: Stack)
    requires s.chunks != [] && FlagBacked(s, a) && a.finished == b.finished
    ensures FlagBacked(s, b)
  {}

  lemma StepBacked(s: Obstack, a: Stack, op: Op)
    requires Shape(s) && Enabled(s, op) && FlagBacked(s, a) && !op.FreeOp? && !op.FinishOp?
    ensures Step(s, op).chunks != [] && FlagBacked(Step(s, op), a)
  {
    hide FlagBacked, Fresh, MakeRoom, Append, Grow, Grow0, Blank, Usable, Apart;
    match op
    case MakeRoomOp(len, spare) => MakeRoomBacked(s, a, len, spare);
    case GrowOp(bytes, spare) => GrowBacked(s, a, bytes, spare);
    case Grow0Op(bytes, spare) => Grow0Backed(s, a, bytes, spare);
    case GrowFastOp(bytes) => AppendBacked(s, a, bytes);
    case BlankOp(delta, spare) => BlankBacked(s, a, delta, spare);
    case BlankFastOp(delta) => SameTopBacked(s, a, BlankFast(s, delta), a);
  }

  /** As long as nothing is freed the flag is exact, so that an overflow gives
      the old chunk back exactly if nothing lies in it. */
  lemma {:induction false} DropsExactlyWithoutFree(s: Obstack, a: Stack, ops: seq<Op>)
    requires Represents(s, a) && LegalRun(s, a, ops) && FlagBacked(s, a)
    requires forall op | op in ops :: !op.FreeOp?
    ensures var t, b := Run(s, a, ops), StackRun(s, a, ops);
            Shape(t) && FlagBacked(t, b) && (Drops(t) <==> TopIsUnused(t, b))
    decreases |ops|
  {
    if ops == [] {
      ChunkDroppedOnlyIfUnused(s, a);
    } else {
      StepRefines(s, a, ops[0]);
      StepKeepsFlagBacked(s, a, ops[0]);
      DropsExactlyWithoutFree(Step(s, ops[0]), StackStep(a, ops[0], Answer(s, ops[0])), ops[1..]);
    }
  }

  /** In every run from a begun obstack in which nothing is freed, an overflow
      gives the old chunk back exactly if no object, not even an empty one, lies in it. */
  lemma DropsExactlyFromBegin(narrow: bool, mask: nat, c: Chunk, ops: seq<Op>)
    requires Usable(narrow, mask, c)
    requires forall op | op in ops :: !op.FreeOp?
    ensures var s := Begin(narrow, mask, c);
            && Represents(s, EMPTY) && FlagBacked(s, EMPTY)
            && (LegalRun(s, EMPTY, ops) ==>
                  var t, b := Run(s, EMPTY, ops), StackRun(s, EMPTY, ops);
                  Shape(t) && (Drops(t) <==> TopIsUnused(t, b)))
  {
    BeginRepresentsEmpty(narrow, mask, c);
    if LegalRun(Begin(narrow, mask, c), EMPTY, ops) {
      DropsExactlyWithoutFree(Begin(narrow, mask, c), EMPTY, ops);
    }
  }

  /** What giving the old chunk back means for the chain: the new chunk follows
      the one before it, and otherwise the old one. */
  lemma OverflowKeepsOrDrops(s: Obstack, a: Stack, len: nat, spare: Chunk)
    requires Represents(s, a) && FlagBacked(s, a) && s.free + len > s.limit && Fresh(s, len, spare)
    ensures var t, n := MakeRoom(s, len, spare), |s.chunks|;
            && |t.chunks| == (if TopIsUnused(s, a) then n else n + 1)
            && t.chunks[..|t.chunks| - 1] == if TopIsUnused(s, a) then s.chunks[..n - 1] else s.chunks
  {
    ChunkDroppedOnlyIfUnused(s, a);
  }

  /** maybe_empty_object only says maybe: an empty object that is finished and
      freed again pins the chunk although nothing lies in it. */
  lemma EmptyObjectPinsChunk(s: Obstack, a: Stack)
    requires Represents(s, a) && Drops(s) && a.growing == []
    ensures Unwind(Finish(s).chunks, s.base) != []
    ensures var t := Free(Finish(s), s.base);
            Represents(t, a) && TopIsUnused(t, a) && !Drops(t)
  {
    hide Sits, Floor, Growing, Start, Usable, NoneEmpty, PtrAlign;
    var homes :| Located(s, a, homes);
    var n, k := |homes|, |s.chunks| - 1;
    var finished := Stack(a.finished + [Obj(s.base, [])], []);
    FinishLocated(s, a, homes);
    FreeLocated(Finish(s), finished, homes + [k], n);
    FreeChunks(Finish(s), finished, homes + [k], n);
    assert finished.finished[..n] == a.finished;
    ChunkDroppedOnlyIfUnused(s, a);
  }

  /** The fast path of obstack_free is taken exactly for the objects, finished or
      growing, whose home is the current chunk and that do not sit at its limit,
      wherever the other chunks lie. */
  lemma FastPathExactly(s: Obstack, a: Stack, homes: seq<nat>, victim: nat)
    requires Located(s, a, homes) && victim <= |homes|
    ensures var p := AddressOf(s, a, victim);
            IsFast(s, p) <==> HomeOf(s, homes, victim) == |s.chunks| - 1 && p != s.limit
  {
    VictimOwned(s, a, homes, victim);
    if victim < |homes| {
      HomeIsOwner(s, a, homes, victim, |s.chunks| - 1);
    }
  }

  lemma FreeReturnsToOwner(s: Obstack, a: Stack, victim: nat, k: nat)
    requires Represents(s, a) && victim < |a.finished|
    requires k < |s.chunks| && Owns(s.chunks[k], a.finished[victim].addr)
    ensures var p := a.finished[victim].addr;
            && Unwind(s.chunks, p) != []
            && Free(s, p).chunks == s.chunks[..k + 1]
            && Represents(Free(s, p), Stack(a.finished[..victim], []))
  {
    var homes :| Located(s, a, homes);
    FreeLocated(s, a, homes, victim);
    FreeChunks(s, a, homes, victim);
    HomeIsOwner(s, a, homes, victim, k);
  }

  lemma NewerObjectsLieHigher(s: Obstack, a: Stack, i: nat, j: nat, k: nat, m: nat)
    requires Represents(s, a) && i < j < |a.finished| && k < |s.chunks| && m < |s.chunks|
    requires Owns(s.chunks[k], a.finished[i].addr) && Owns(s.chunks[m], a.finished[j].addr)
    ensures k <= m
    ensures k == m ==> a.finished[i].addr + |a.finished[i].bytes| <= a.finished[j].addr
  {
    var homes :| Located(s, a, homes);
    HomeIsOwner(s, a, homes, i, k);
    HomeIsOwner(s, a, homes, j, m);
    if k == m {
      StackOrderIsAddressOrder(s, a, i, j, k);
    }
  }

  /** Freeing an object by its address makes its chunk k the current one and
      removes exactly the objects of newer chunks and those of chunk k at or
      above it in the stack; what stays lies below it or in an older chunk. */
  lemma FreeRemovesExactly(s: Obstack, a: Stack, victim: nat, k: nat, i: nat, m: nat)
    requires Represents(s, a) && victim < |a.finished| && i < |a.finished|
    requires k < |s.chunks| && Owns(s.chunks[k], a.finished[victim].addr)
    requires m < |s.chunks| && Owns(s.chunks[m], a.finished[i].addr)
    ensures var p, o := a.finished[victim].addr, a.finished[i];
            && Unwind(s.chunks, p) != []
            && Free(s, p).chunks == s.chunks[..k + 1]
            && Represents(Free(s, p), Stack(a.finished[..victim], []))
            && (i < victim ==> m < k || (m == k && o.addr + |o.bytes| <= p))
            && (i >= victim ==> m > k || (m == k && p <= o.addr))
  {
    FreeReturnsToOwner(s, a, victim, k);
    if i < victim {
      NewerObjectsLieHigher(s, a, i, victim, m, k);
    } else if victim < i {
      NewerObjectsLieHigher(s, a, victim, i, k, m);
    } else if k < m {
      OwnerIsUnique(s, a.finished[i].addr, k, m);
    } else if m < k {
      OwnerIsUnique(s, a.finished[i].addr, m, k);
    }
  }

  // ---- room, and different ways to the same object ------------------------------

  /** n times obstack_1grow_fast. */
  function GrowFastEach(s: Obstack, bytes: seq<Byte>): Obstack
    requires Shape(s) && !Overflows(s, |bytes|)
    decreases |bytes|
  {
    if bytes == [] then s
    else
      AppendKeepsShape(s, bytes[..1]);
      GrowFastEach(Append(s, bytes[..1]), bytes[1..])
  }

  lemma WriteTwice(c: Chunk, p: nat, x: seq<Byte>, y: seq<Byte>)
    requires |c.data| == c.limit - c.addr && c.addr <= p && p + |x| + |y| <= c.limit
    ensures Write(Write(c, p, x), p + |x|, y) == Write(c, p, x + y)
  {
    assert Write(Write(c, p, x), p + |x|, y).data == Write(c, p, x + y).data;
  }

  lemma AppendTwice(s: Obstack, x: seq<Byte>, y: seq<Byte>)
    requires Shape(s) && !Overflows(s, |x| + |y|)
    ensures Shape(Append(s, x))
    ensures Append(Append(s, x), y) == Append(s, x + y)
  {
    hide Start, PowerOfTwo, Read;
    AppendKeepsShape(s, x);
    StartInside(s.narrow, s.mask, Top(s));
    WriteTwice(Top(s), s.free, x, y);
  }

  lemma AppendNothing(s: Obstack)
    requires Shape(s)
    ensures Append(s, []) == s
  {
    hide Start, PowerOfTwo;
    StartInside(s.narrow, s.mask, Top(s));
    assert Write(Top(s), s.free, []).data == Top(s).data;
    assert Append(s, []).chunks == s.chunks;
  }

  /** After obstack_make_room (n) any n unchecked steps stay inside the chunk
      and leave exactly what one obstack_grow would have left. */
  lemma {:induction false} FastStepsAreGrow(s: Obstack, bytes: seq<Byte>)
    requires Shape(s) && !Overflows(s, |bytes|)
    ensures GrowFastEach(s, bytes) == Append(s, bytes)
    decreases |bytes|
  {
    hide Write, Start, Usable, Apart;
    if bytes == [] {
      AppendNothing(s);
    } else {
      AppendKeepsShape(s, bytes[..1]);
      FastStepsAreGrow(Append(s, bytes[..1]), bytes[1..]);
      AppendTwice(s, bytes[..1], bytes[1..]);
      assert bytes == bytes[..1] + bytes[1..];
    }
  }

  /** n checked obstack_1grow calls, call i with its own allocator answer. */
  ghost predicate GrowsTo(s: Obstack, bytes: seq<Byte>, spares: seq<Chunk>, t: Obstack)
    requires |spares| == |bytes|
    decreases |bytes|
  {
    if bytes == [] then t == s
    else
      && Shape(s)
      && (Overflows(s, 1) ==> Fresh(s, 1, spares[0]))
      && GrowsTo(Grow(s, bytes[..1], spares[0]), bytes[1..], spares[1..], t)
  }

  lemma GrowRefines(s: Obstack, a: Stack, bytes: seq<Byte>, spare: Chunk)
    requires Represents(s, a) && (Overflows(s, |bytes|) ==> Fresh(s, |bytes|, spare))
    ensures Represents(Grow(s, bytes, spare), a.(growing := a.growing + bytes))
  {
    StepRefines(s, a, GrowOp(bytes, spare));
  }

  lemma {:induction false} CheckedStepsRefine(s: Obstack, a: Stack, bytes: seq<Byte>, spares: seq<Chunk>, t: Obstack)
    requires Represents(s, a) && |spares| == |bytes| && GrowsTo(s, bytes, spares, t)
    ensures Represents(t, a.(growing := a.growing + bytes))
    decreases |bytes|
  {
    hide Represents, Grow, Usable, Start;
    if bytes == [] {
      assert a.growing + bytes == a.growing;
    } else {
      GrowRefines(s, a, bytes[..1], spares[0]);
      CheckedStepsRefine(Grow(s, bytes[..1], spares[0]), a.(growing := a.growing + bytes[..1]),
                         bytes[1..], spares[1..], t);
      assert a.growing + bytes[..1] + bytes[1..] == a.growing + bytes;
    }
  }

  /** The unchecked steps after make_room and the checked steps from the same
      state build the same object, even if they overflow at different points. */
  lemma RoomThenFastRefinesChecked(s: Obstack, a: Stack, bytes: seq<Byte>, spare: Chunk,
                                   spares: seq<Chunk>, t: Obstack)
    requires Represents(s, a) && (Overflows(s, |bytes|) ==> Fresh(s, |bytes|, spare))
    requires |spares| == |bytes| && GrowsTo(s, bytes, spares, t)
    ensures Shape(MakeRoom(s, |bytes|, spare)) && !Overflows(MakeRoom(s, |bytes|, spare), |bytes|)
    ensures Represents(GrowFastEach(MakeRoom(s, |bytes|, spare), bytes), a.(growing := a.growing + bytes))
    ensures Represents(t, a.(growing := a.growing + bytes))
  {
    MakeRoomKeepsShape(s, |bytes|, spare);
    FastStepsAreGrow(MakeRoom(s, |bytes|, spare), bytes);
    GrowRefines(s, a, bytes, spare);
    CheckedStepsRefine(s, a, bytes, spares, t);
  }

  /** obstack_grow0 builds what obstack_grow followed by obstack_1grow of a NUL builds. */
  lemma Grow0IsGrowThenNul(s: Obstack, a: Stack, bytes: seq<Byte>, c: Chunk, d: Chunk, e: Chunk)
    requires Represents(s, a)
    requires Overflows(s, |bytes| + 1) ==> Fresh(s, |bytes| + 1, c)
    requires Overflows(s, |bytes|) ==> Fresh(s, |bytes|, d)
    ensures Shape(Grow(s, bytes, d))
    ensures (Overflows(Grow(s, bytes, d), 1) ==> Fresh(Grow(s, bytes, d), 1, e)) ==>
              var built := a.(growing := a.growing + bytes + [0]);
              Represents(Grow0(s, bytes, c), built) && Represents(Grow(Grow(s, bytes, d), [0], e), built)
  {
    StepRefines(s, a, Grow0Op(bytes, c));
    GrowRefines(s, a, bytes, d);
    var t := Grow(s, bytes, d);
    if Overflows(t, 1) ==> Fresh(t, 1, e) {
      GrowRefines(t, a.(growing := a.growing + bytes), [0], e);
    }
  }

  // ---- obstack_empty_p ----------------------------------------------------------

  /** obstack_empty_p: no earlier chunk, and nothing stored in this one. */
  predicate EmptyP(s: Obstack)
    requires Shape(s)
  {
    |s.chunks| == 1 && s.free == Start(s.narrow, s.mask, Top(s))
  }

  lemma StartIsSeat(narrow: bool, mask: nat, c: Chunk)
    requires Usable(narrow, mask, c)
    ensures Next(mask, c.limit, Start(narrow, mask, c)) == Start(narrow, mask, c)
  {
    StartAligned(narrow, mask, c);
    NextSeat(mask, c.limit, Start(narrow, mask, c));
  }

  lemma {:induction false} EmptiesStayAtStart(s: Obstack, a: Stack, homes: seq<nat>, i: nat)
    requires Located(s, a, homes) && i <= |homes| && |s.chunks| == 1
    requires forall j | 0 <= j < i :: a.finished[j].bytes == []
    ensures Floor(s, a.finished, homes, i, 0) == Start(s.narrow, s.mask, s.chunks[0])
  {
    hide Start, Next, Read, PowerOfTwo;
    if i > 0 {
      EmptiesStayAtStart(s, a, homes, i - 1);
      assert Sits(s, a.finished, homes, i - 1);
      StartIsSeat(s.narrow, s.mask, s.chunks[0]);
    }
  }

  /** obstack_empty_p holds exactly when there is one chunk and every live
      string, finished or growing, is empty. */
  lemma EmptyPMeansAllEmpty(s: Obstack, a: Stack)
    requires Represents(s, a)
    ensures EmptyP(s) <==>
              |s.chunks| == 1 && a.growing == [] && forall i | 0 <= i < |a.finished| :: a.finished[i].bytes == []
  {
    var homes :| Located(s, a, homes);
    if EmptyP(s) {
      forall i | 0 <= i < |homes|
        ensures a.finished[i].bytes == []
      {
        assert Sits(s, a.finished, homes, i);
        FloorAbove(s, a, homes, i, |homes|, 0);
        FloorAboveStart(s, a, homes, i);
      }
    }
    if |s.chunks| == 1 && a.growing == [] && forall i | 0 <= i < |a.finished| :: a.finished[i].bytes == [] {
      EmptiesStayAtStart(s, a, homes, |homes|);
    }
  }
}
