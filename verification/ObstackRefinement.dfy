/** The obstack refines a stack of finished byte strings with one growing
    string on top, over every run of the macros. */
module ObstackRefinement {
  import opened Alignment
  import opened ObstackSpec

  /** A finished object as its owner sees it: where it is and what it holds. */
  datatype Obj = Obj(addr: nat, bytes: seq<Byte>)

  datatype Stack = Stack(finished: seq<Obj>, growing: seq<Byte>)

  /** What a call gives back: the address obstack_finish returns, and the
      unspecified bytes that obstack_blank exposes. */
  datatype Reply = Reply(at: nat, junk: seq<Byte>)

  predicate StackEnabled(a: Stack, op: Op, r: Reply) {
    match op
    case BlankOp(delta, _) => delta >= -|a.growing| && (delta >= 0 ==> |r.junk| == delta)
    case BlankFastOp(delta) => delta >= -|a.growing| && (delta >= 0 ==> |r.junk| == delta)
    case FreeOp(_, victim) => victim <= |a.finished|
    case _ => true
  }

  function Resize(growing: seq<Byte>, delta: int, junk: seq<Byte>): seq<Byte>
    requires delta >= -|growing|
  {
    if delta >= 0 then growing + junk else growing[..|growing| + delta]
  }

  /** The specification: grow appends, finish pushes, free pops back to the named object. */
  function StackStep(a: Stack, op: Op, r: Reply): Stack
    requires StackEnabled(a, op, r)
  {
    match op
    case MakeRoomOp(_, _) => a
    case GrowOp(bytes, _) => a.(growing := a.growing + bytes)
    case Grow0Op(bytes, _) => a.(growing := a.growing + bytes + [0])
    case GrowFastOp(bytes) => a.(growing := a.growing + bytes)
    case BlankOp(delta, _) => a.(growing := Resize(a.growing, delta, r.junk))
    case BlankFastOp(delta) => a.(growing := Resize(a.growing, delta, r.junk))
    case FinishOp => Stack(a.finished + [Obj(r.at, a.growing)], [])
    case FreeOp(_, victim) => Stack(a.finished[..victim], [])
  }

  // ---- the layout invariant -------------------------------------------------

  /** Where the object after one ending at p goes in a chunk with this limit. */
  function Next(mask: nat, limit: nat, p: nat): nat {
    var up := BptrAlign(0, p, mask);
    if up > limit then limit else up
  }

  /** Where the object following the first i goes if it goes into chunk k. */
  function Floor(s: Obstack, objs: seq<Obj>, homes: seq<nat>, i: nat, k: nat): nat
    requires i <= |objs| == |homes| && k < |s.chunks| && s.chunks[k].addr < s.chunks[k].contents
  {
    if i > 0 && homes[i - 1] == k then Next(s.mask, s.chunks[k].limit, objs[i - 1].addr + |objs[i - 1].bytes|)
    else Start(s.narrow, s.mask, s.chunks[k])
  }

  predicate Holds(c: Chunk, o: Obj) {
    && |c.data| == c.limit - c.addr
    && c.addr < o.addr
    && o.addr + |o.bytes| <= c.limit
    && Read(c, o.addr, |o.bytes|) == o.bytes
  }

  /** Object i sits in its home chunk, immediately after its predecessor there. */
  predicate Sits(s: Obstack, objs: seq<Obj>, homes: seq<nat>, i: nat)
    requires Shape(s) && i < |objs| == |homes|
  {
    && homes[i] < |s.chunks|
    && objs[i].addr == Floor(s, objs, homes, i, homes[i])
    && Holds(s.chunks[homes[i]], objs[i])
  }

  /** homes[i] is the chunk of the chain in which finished object i lives. */
  predicate Laid(s: Obstack, objs: seq<Obj>, homes: seq<nat>) {
    && Shape(s)
    && |homes| == |objs|
    && (forall i | 0 <= i < |homes| :: Sits(s, objs, homes, i))
    && (forall i, j | 0 <= i < j < |homes| :: homes[i] <= homes[j])
  }

  /** No object of the current chunk is empty. */
  predicate NoneEmpty(s: Obstack, objs: seq<Obj>, homes: seq<nat>)
    requires |homes| == |objs|
  {
    forall i | 0 <= i < |homes| && homes[i] == |s.chunks| - 1 :: objs[i].bytes != []
  }

  predicate Located(s: Obstack, a: Stack, homes: seq<nat>) {
    && Laid(s, a.finished, homes)
    && s.base == Floor(s, a.finished, homes, |homes|, |s.chunks| - 1)
    && a.growing == Growing(s)
    && (!s.maybeEmpty ==> NoneEmpty(s, a.finished, homes))
  }

  /** The obstack s represents the stack a. */
  ghost predicate Represents(s: Obstack, a: Stack) {
    exists homes :: Located(s, a, homes)
  }

  /** An address an object may be given: aligned, or one past the end of its chunk. */
  predicate Seat(mask: nat, limit: nat, p: nat) {
    Aligned(p, mask) || p == limit
  }

  lemma NextSeat(mask: nat, limit: nat, p: nat)
    requires PowerOfTwo(mask + 1) && p <= limit
    ensures p <= Next(mask, limit, p) <= limit
    ensures Seat(mask, limit, Next(mask, limit, p))
    ensures Seat(mask, limit, p) ==> Next(mask, limit, p) == p
  {
    BptrAlignIsLeast(0, p, mask);
  }

  lemma FloorSeat(s: Obstack, a: Stack, homes: seq<nat>, i: nat, k: nat)
    requires Located(s, a, homes) && i <= |homes| && k < |s.chunks|
    ensures Floor(s, a.finished, homes, i, k) <= s.chunks[k].limit
    ensures Seat(s.mask, s.chunks[k].limit, Floor(s, a.finished, homes, i, k))
    ensures i > 0 && homes[i - 1] == k ==>
              a.finished[i - 1].addr + |a.finished[i - 1].bytes| <= Floor(s, a.finished, homes, i, k)
  {
    hide Start, Next, Aligned, Read, PowerOfTwo;
    StartAligned(s.narrow, s.mask, s.chunks[k]);
    if i > 0 && homes[i - 1] == k {
      assert Sits(s, a.finished, homes, i - 1);
      NextSeat(s.mask, s.chunks[k].limit, a.finished[i - 1].addr + |a.finished[i - 1].bytes|);
    }
  }

  /** Later positions of a chunk lie above every earlier object of it. */
  lemma {:induction false} FloorAbove(s: Obstack, a: Stack, homes: seq<nat>, i: nat, j: nat, k: nat)
    requires Located(s, a, homes) && i < j <= |homes| && k < |s.chunks|
    requires homes[i] == k && (j < |homes| ==> homes[j] == k) && (j == |homes| ==> k == |s.chunks| - 1)
    ensures a.finished[i].addr + |a.finished[i].bytes| <= Floor(s, a.finished, homes, j, k)
    decreases j
  {
    assert Sits(s, a.finished, homes, i);
    assert Sits(s, a.finished, homes, j - 1);
    FloorSeat(s, a, homes, j, k);
    if j - 1 > i {
      FloorAbove(s, a, homes, i, j - 1, k);
    }
  }

  // ---- each operation keeps the layout --------------------------------------

  lemma AppendLocated(s: Obstack, a: Stack, homes: seq<nat>, bytes: seq<Byte>)
    requires Located(s, a, homes) && !Overflows(s, |bytes|)
    ensures Located(Append(s, bytes), a.(growing := a.growing + bytes), homes)
  {
    var t, n := Append(s, bytes), |s.chunks| - 1;
    AppendKeepsShape(s, bytes);
    StartInside(s.narrow, s.mask, Top(s));
    forall i | 0 <= i < |homes|
      ensures Sits(t, a.finished, homes, i)
    {
      assert Sits(s, a.finished, homes, i);
      if homes[i] == n {
        FloorAbove(s, a, homes, i, |homes|, n);
        ReadBelow(Top(s), s.free, bytes, a.finished[i].addr, |a.finished[i].bytes|);
      }
    }
  }

  /** A chunk is given back only if no live object, not even an empty one, lies in it. */
  lemma DropIsSafe(s: Obstack, a: Stack, homes: seq<nat>)
    requires Located(s, a, homes) && Drops(s)
    ensures forall i | 0 <= i < |homes| :: homes[i] < |s.chunks| - 1
  {
    var n := |homes|;
    forall i | 0 <= i < n
      ensures homes[i] < |s.chunks| - 1
    {
      assert Sits(s, a.finished, homes, i);
      if homes[i] == |s.chunks| - 1 {
        FloorAbove(s, a, homes, i, n, |s.chunks| - 1);
        FloorAboveStart(s, a, homes, i);
      }
    }
  }

  lemma {:induction false} FloorAboveStart(s: Obstack, a: Stack, homes: seq<nat>, i: nat)
    requires Located(s, a, homes) && i < |homes|
    ensures homes[i] < |s.chunks| && Start(s.narrow, s.mask, s.chunks[homes[i]]) <= a.finished[i].addr
  {
    assert Sits(s, a.finished, homes, i);
    if i > 0 && homes[i - 1] == homes[i] {
      assert Sits(s, a.finished, homes, i - 1);
      FloorAboveStart(s, a, homes, i - 1);
      FloorSeat(s, a, homes, i, homes[i]);
    }
  }

  lemma NewChunkLocated(s: Obstack, a: Stack, homes: seq<nat>, len: int, spare: Chunk)
    requires Located(s, a, homes) && len >= 0 && Fresh(s, len, spare)
    ensures Located(NewChunk(s, len, spare), a, homes)
  {
    var t := NewChunk(s, len, spare);
    NewChunkKeepsShape(s, len, spare);
    if Drops(s) {
      DropIsSafe(s, a, homes);
    }
    forall i | 0 <= i < |homes|
      ensures Sits(t, a.finished, homes, i) && homes[i] < |t.chunks| - 1
    {
      assert Sits(s, a.finished, homes, i);
    }
  }

  lemma MakeRoomLocated(s: Obstack, a: Stack, homes: seq<nat>, len: int, spare: Chunk)
    requires Located(s, a, homes) && (Overflows(s, len) ==> Fresh(s, len, spare))
    ensures Located(MakeRoom(s, len, spare), a, homes)
  {
    if Overflows(s, len) {
      NewChunkLocated(s, a, homes, len, spare);
    }
  }

  /** The bytes a blank of this length exposes, read where it puts them. */
  function Exposed(s: Obstack, delta: int): seq<Byte>
    requires Shape(s) && !Overflows(s, delta)
  {
    StartInside(s.narrow, s.mask, Top(s));
    if delta >= 0 then Read(Top(s), s.free, delta) else []
  }

  lemma BlankFastShape(s: Obstack, delta: int)
    requires Shape(s) && s.base <= s.free + delta && !Overflows(s, delta)
    ensures Shape(BlankFast(s, delta)) && Top(BlankFast(s, delta)) == Top(s)
  {}

  lemma BlankFastGrowing(s: Obstack, delta: int)
    requires Shape(s) && s.base <= s.free + delta && !Overflows(s, delta)
    ensures Shape(BlankFast(s, delta))
    ensures Growing(BlankFast(s, delta)) == Resize(Growing(s), delta, Exposed(s, delta))
  {
    hide Start, Read, PowerOfTwo;
    BlankFastShape(s, delta);
    StartInside(s.narrow, s.mask, Top(s));
    var c, n := Top(s), s.free - s.base;
    if delta >= 0 {
      assert Read(c, s.base, n + delta) == Read(c, s.base, n) + Read(c, s.free, delta) by {
        ReadSplit(c, s.base, n, delta);
      }
    } else {
      assert Read(c, s.base, n + delta) == Read(c, s.base, n)[..n + delta] by {
        ReadSplit(c, s.base, n + delta, -delta);
      }
    }
  }

  lemma BlankFastLocated(s: Obstack, a: Stack, homes: seq<nat>, delta: int)
    requires Located(s, a, homes) && s.base <= s.free + delta && !Overflows(s, delta)
    ensures Located(BlankFast(s, delta), a.(growing := Resize(a.growing, delta, Exposed(s, delta))), homes)
  {
    BlankFastGrowing(s, delta);
    forall i | 0 <= i < |homes|
      ensures Sits(BlankFast(s, delta), a.finished, homes, i)
    {
      assert Sits(s, a.finished, homes, i);
    }
  }

  /** Both alignment strategies end the object at the same place, also when the
      base is an unaligned chunk limit. */
  lemma EndOfObject(narrow: bool, mask: nat, base: nat, free: nat, limit: nat)
    requires PowerOfTwo(mask + 1) && base <= free <= limit && Seat(mask, limit, base)
    ensures var up := PtrAlign(narrow, base, free, mask);
            (if up > limit then limit else up) == Next(mask, limit, free)
  {
    hide PowerOfTwo, BptrAlign;
    if narrow {
      if Aligned(base, mask) {
        StrategiesAgree(base, free, mask);
      } else {
        BptrAlignIsLeast(0, free, mask);
        BptrAlignFixes(base, free, mask);
      }
    }
  }

  /** Layout conditions on the first objects look at nothing else. */
  lemma SitsStill(s: Obstack, objs: seq<Obj>, homes: seq<nat>,
                  t: Obstack, objs': seq<Obj>, homes': seq<nat>, i: nat)
    requires Shape(s) && Shape(t) && s.mask == t.mask && s.narrow == t.narrow
    requires i < |objs| == |homes| && i < |objs'| == |homes'|
    requires objs[..i + 1] == objs'[..i + 1] && homes[..i + 1] == homes'[..i + 1]
    requires homes[i] < |t.chunks|
    requires Sits(s, objs, homes, i) && t.chunks[homes[i]] == s.chunks[homes[i]]
    ensures Sits(t, objs', homes', i)
  {
    assert objs[i] == objs[..i + 1][i] == objs'[i];
    assert homes[i] == homes[..i + 1][i] == homes'[i];
    if i > 0 {
      assert objs[i - 1] == objs[..i + 1][i - 1] == objs'[i - 1];
      assert homes[i - 1] == homes[..i + 1][i - 1] == homes'[i - 1];
    }
  }

  lemma FinishShape(s: Obstack, a: Stack, homes: seq<nat>)
    requires Located(s, a, homes)
    ensures Shape(Finish(s))
    ensures Finish(s).base == Next(s.mask, s.limit, s.free)
  {
    hide Start, BptrAlign, Next, Floor, Seat;
    FloorSeat(s, a, homes, |homes|, |s.chunks| - 1);
    EndOfObject(s.narrow, s.mask, s.base, s.free, s.limit);
    NextSeat(s.mask, s.limit, s.free);
  }

  lemma FinishSits(s: Obstack, a: Stack, homes: seq<nat>, objs: seq<Obj>, homes': seq<nat>)
    requires Located(s, a, homes)
    requires objs == a.finished + [Obj(s.base, a.growing)] && homes' == homes + [|s.chunks| - 1]
    ensures Shape(Finish(s)) && Sits(Finish(s), objs, homes', |homes|)
  {
    hide Start, Next, BptrAlign, PtrAlign, Read, Usable, Apart;
    FinishShape(s, a, homes);
    StartInside(s.narrow, s.mask, Top(s));
    assert |Top(s).data| == s.limit - Top(s).addr by {
      TopSize(s);
    }
  }

  lemma TopSize(s: Obstack)
    requires Shape(s)
    ensures |Top(s).data| == Top(s).limit - Top(s).addr
  {}

  lemma FinishLaid(s: Obstack, a: Stack, homes: seq<nat>, objs: seq<Obj>, homes': seq<nat>)
    requires Located(s, a, homes)
    requires objs == a.finished + [Obj(s.base, a.growing)] && homes' == homes + [|s.chunks| - 1]
    ensures Laid(Finish(s), objs, homes')
  {
    hide Start, Next, BptrAlign, PtrAlign, Read, Usable, Apart, Holds;
    FinishShape(s, a, homes);
    FinishSits(s, a, homes, objs, homes');
    forall i | 0 <= i < |homes'|
      ensures Sits(Finish(s), objs, homes', i) && homes'[i] <= |s.chunks| - 1
    {
      if i < |homes| {
        assert Sits(s, a.finished, homes, i);
        SitsStill(s, a.finished, homes, Finish(s), objs, homes', i);
      }
    }
  }

  lemma FinishLocated(s: Obstack, a: Stack, homes: seq<nat>)
    requires Located(s, a, homes)
    ensures Located(Finish(s), Stack(a.finished + [Obj(s.base, a.growing)], []), homes + [|s.chunks| - 1])
  {
    hide Start, Next, BptrAlign, Usable, Apart, Sits;
    FinishShape(s, a, homes);
    FinishLaid(s, a, homes, a.finished + [Obj(s.base, a.growing)], homes + [|s.chunks| - 1]);
  }

  /** The object, counted from the bottom of the stack, that a free names: a
      finished one, or the growing one. */
  function AddressOf(s: Obstack, a: Stack, victim: nat): nat
    requires victim <= |a.finished|
  {
    if victim < |a.finished| then a.finished[victim].addr else s.base
  }

  function HomeOf(s: Obstack, homes: seq<nat>, victim: nat): int
    requires victim <= |homes|
  {
    if victim < |homes| then homes[victim] else |s.chunks| - 1
  }

  /** Two chunks never own the same address, even when they are adjacent. */
  lemma OwnerIsUnique(s: Obstack, p: nat, j: nat, k: nat)
    requires Shape(s) && j < k < |s.chunks|
    ensures !(Owns(s.chunks[j], p) && Owns(s.chunks[k], p))
  {
    assert Apart(s.chunks[j], s.chunks[k]);
  }

  lemma VictimOwned(s: Obstack, a: Stack, homes: seq<nat>, victim: nat)
    requires Located(s, a, homes) && victim <= |homes|
    ensures 0 <= HomeOf(s, homes, victim) < |s.chunks|
    ensures var c := s.chunks[HomeOf(s, homes, victim)];
            Owns(c, AddressOf(s, a, victim)) && Start(s.narrow, s.mask, c) <= AddressOf(s, a, victim)
  {
    if victim < |homes| {
      assert Sits(s, a.finished, homes, victim);
      FloorAboveStart(s, a, homes, victim);
    }
    StartInside(s.narrow, s.mask, s.chunks[HomeOf(s, homes, victim)]);
  }

  /** Free keeps exactly the chunks up to the one the named object lives in.
      The fast path is taken only for an object of the current chunk. */
  lemma FreeChunks(s: Obstack, a: Stack, homes: seq<nat>, victim: nat)
    requires Located(s, a, homes) && victim <= |homes|
    ensures var p, k := AddressOf(s, a, victim), HomeOf(s, homes, victim);
            && 0 <= k < |s.chunks|
            && (IsFast(s, p) ==> k == |s.chunks| - 1)
            && Unwind(s.chunks, p) == s.chunks[..k + 1]
            && Free(s, p) == s.(chunks := s.chunks[..k + 1], base := p, free := p, limit := s.chunks[k].limit,
                                maybeEmpty := s.maybeEmpty || k < |s.chunks| - 1)
  {
    var p, k := AddressOf(s, a, victim), HomeOf(s, homes, victim);
    VictimOwned(s, a, homes, victim);
    forall j | k < j < |s.chunks|
      ensures !Owns(s.chunks[j], p)
    {
      OwnerIsUnique(s, p, k, j);
    }
    UnwindStops(s.chunks, p, k + 1);
    assert s.chunks[..|s.chunks|] == s.chunks;
  }

  lemma FreeShape(s: Obstack, a: Stack, homes: seq<nat>, victim: nat)
    requires Located(s, a, homes) && victim <= |homes|
    ensures Unwind(s.chunks, AddressOf(s, a, victim)) != []
    ensures Shape(Free(s, AddressOf(s, a, victim)))
    ensures Growing(Free(s, AddressOf(s, a, victim))) == []
  {
    hide Start, Next, BptrAlign;
    FreeChunks(s, a, homes, victim);
    VictimOwned(s, a, homes, victim);
  }

  lemma FreeLaid(s: Obstack, a: Stack, homes: seq<nat>, victim: nat, t: Obstack)
    requires Located(s, a, homes) && victim <= |homes|
    requires Unwind(s.chunks, AddressOf(s, a, victim)) != [] && t == Free(s, AddressOf(s, a, victim))
    ensures Laid(t, a.finished[..victim], homes[..victim])
  {
    FreeChunks(s, a, homes, victim);
    FreeShape(s, a, homes, victim);
    forall i | 0 <= i < victim
      ensures Sits(t, a.finished[..victim], homes[..victim], i)
    {
      assert Sits(s, a.finished, homes, i);
      SitsStill(s, a.finished, homes, t, a.finished[..victim], homes[..victim], i);
    }
  }

  lemma FreeFloor(s: Obstack, a: Stack, homes: seq<nat>, victim: nat, t: Obstack)
    requires Located(s, a, homes) && victim <= |homes|
    requires Unwind(s.chunks, AddressOf(s, a, victim)) != [] && t == Free(s, AddressOf(s, a, victim))
    ensures Shape(t)
    ensures t.base == Floor(t, a.finished[..victim], homes[..victim], victim, |t.chunks| - 1)
  {
    hide Usable, Start, Next, Read;
    FreeChunks(s, a, homes, victim);
    FreeShape(s, a, homes, victim);
    if victim < |homes| {
      assert Sits(s, a.finished, homes, victim);
    }
  }

  lemma FreeNoneEmpty(s: Obstack, a: Stack, homes: seq<nat>, victim: nat, t: Obstack)
    requires Located(s, a, homes) && victim <= |homes|
    requires Unwind(s.chunks, AddressOf(s, a, victim)) != [] && t == Free(s, AddressOf(s, a, victim))
    ensures !t.maybeEmpty ==> NoneEmpty(t, a.finished[..victim], homes[..victim])
  {
    FreeChunks(s, a, homes, victim);
  }

  /** Freeing any object, by its address, pops it and everything above it. */
  lemma FreeLocated(s: Obstack, a: Stack, homes: seq<nat>, victim: nat)
    requires Located(s, a, homes) && victim <= |homes|
    ensures Unwind(s.chunks, AddressOf(s, a, victim)) != []
    ensures Located(Free(s, AddressOf(s, a, victim)), Stack(a.finished[..victim], []), homes[..victim])
  {
    FreeShape(s, a, homes, victim);
    var t := Free(s, AddressOf(s, a, victim));
    FreeLaid(s, a, homes, victim, t);
    FreeFloor(s, a, homes, victim, t);
    FreeNoneEmpty(s, a, homes, victim, t);
  }
}
