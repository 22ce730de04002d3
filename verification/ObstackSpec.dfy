/** What the obstack macros compute, as functions on a snapshot of the control
    block and its chain of chunks.  Addresses are unbounded naturals. */
module ObstackSpec {
  import opened Alignment

  type Byte = x: int | 0 <= x < 256

  /** struct _obstack_chunk: the bytes from `addr` up to `limit`, objects from `contents` on. */
  datatype Chunk = Chunk(addr: nat, contents: nat, limit: nat, data: seq<Byte>)

  /** struct obstack.  `chunks` is the prev chain, oldest first; its last element is `chunk`. */
  datatype Obstack = Obstack(
    narrow: bool,
    mask: nat,
    chunks: seq<Chunk>,
    base: nat,
    free: nat,
    limit: nat,
    maybeEmpty: bool)

  predicate Usable(narrow: bool, mask: nat, c: Chunk) {
    && PowerOfTwo(mask + 1)
    && c.addr < c.contents
    && Start(narrow, mask, c) <= c.limit
    && c.addr <= c.limit
    && |c.data| == c.limit - c.addr
    && (narrow ==> Aligned(c.addr, mask))
  }

  /** Where the first object of a chunk goes. */
  function Start(narrow: bool, mask: nat, c: Chunk): nat
    requires c.addr < c.contents
  {
    PtrAlign(narrow, c.addr, c.contents, mask)
  }

  predicate Apart(c: Chunk, d: Chunk) {
    c.limit <= d.addr || d.limit <= c.addr
  }

  predicate Shape(s: Obstack) {
    && s.chunks != []
    && (forall k | 0 <= k < |s.chunks| :: Usable(s.narrow, s.mask, s.chunks[k]))
    && (forall j, k | 0 <= j < k < |s.chunks| :: Apart(s.chunks[j], s.chunks[k]))
    && s.limit == Top(s).limit
    && Start(s.narrow, s.mask, Top(s)) <= s.base <= s.free <= s.limit
  }

  /** The chunk objects are currently carved from. */
  function Top(s: Obstack): Chunk
    requires s.chunks != []
  {
    s.chunks[|s.chunks| - 1]
  }

  /** The n bytes at address p of a chunk. */
  function Read(c: Chunk, p: nat, n: nat): (r: seq<Byte>)
    requires |c.data| == c.limit - c.addr && c.addr <= p && p + n <= c.limit
    ensures |r| == n
  {
    c.data[p - c.addr..p - c.addr + n]
  }

  function Write(c: Chunk, p: nat, bytes: seq<Byte>): (d: Chunk)
    requires |c.data| == c.limit - c.addr && c.addr <= p && p + |bytes| <= c.limit
    ensures |d.data| == |c.data| && d == c.(data := d.data)
  {
    c.(data := c.data[..p - c.addr] + bytes + c.data[p - c.addr + |bytes|..])
  }

  function Growing(s: Obstack): (r: seq<Byte>)
    requires Shape(s)
    ensures |r| == s.free - s.base
  {
    StartInside(s.narrow, s.mask, Top(s));
    Read(Top(s), s.base, s.free - s.base)
  }

  // ---- chunk overflow -------------------------------------------------------

  /** `spare` is what the chunk allocator hands out when asked for room for `len` more bytes. */
  predicate Fresh(s: Obstack, len: int, spare: Chunk)
    requires Shape(s)
  {
    && Usable(s.narrow, s.mask, spare)
    && (forall k | 0 <= k < |s.chunks| :: Apart(s.chunks[k], spare))
    && Start(s.narrow, s.mask, spare) + (s.free - s.base) + len <= spare.limit
  }

  /** The replaced chunk is given back: nothing precedes the growing object in
      it and it cannot contain an empty object. */
  predicate Drops(s: Obstack)
    requires Shape(s)
  {
    !s.maybeEmpty && s.base == Start(s.narrow, s.mask, Top(s))
  }

  /** The partial object is moved to `start` of another chunk, which becomes the current one. */
  function Moved(s: Obstack, spare: Chunk, start: nat, drop: bool): Obstack
    requires Shape(s) && |spare.data| == spare.limit - spare.addr
    requires spare.addr <= start && start + (s.free - s.base) <= spare.limit
  {
    var kept := if drop then s.chunks[..|s.chunks| - 1] else s.chunks;
    s.(chunks := kept + [Write(spare, start, Growing(s))],
       base := start,
       free := start + (s.free - s.base),
       limit := spare.limit,
       maybeEmpty := false)
  }

  function NewChunk(s: Obstack, len: int, spare: Chunk): Obstack
    requires Shape(s) && len >= 0 && Fresh(s, len, spare)
  {
    StartInside(s.narrow, s.mask, spare);
    Moved(s, spare, Start(s.narrow, s.mask, spare), Drops(s))
  }

  predicate Overflows(s: Obstack, len: int) {
    s.free + len > s.limit
  }

  function MakeRoom(s: Obstack, len: int, spare: Chunk): Obstack
    requires Shape(s) && (Overflows(s, len) ==> Fresh(s, len, spare))
  {
    if Overflows(s, len) then NewChunk(s, len, spare) else s
  }

  // ---- growing --------------------------------------------------------------

  /** Bytes are stored at an address of the current chunk. */
  function StoreTop(s: Obstack, p: nat, bytes: seq<Byte>): Obstack
    requires s.chunks != [] && |Top(s).data| == Top(s).limit - Top(s).addr
    requires Top(s).addr <= p && p + |bytes| <= Top(s).limit
  {
    s.(chunks := s.chunks[..|s.chunks| - 1] + [Write(Top(s), p, bytes)])
  }

  /** Store bytes at next_free and advance, as the _fast macros do. */
  function Append(s: Obstack, bytes: seq<Byte>): Obstack
    requires Shape(s) && !Overflows(s, |bytes|)
  {
    StartInside(s.narrow, s.mask, Top(s));
    StoreTop(s, s.free, bytes).(free := s.free + |bytes|)
  }

  /** Move next_free without storing anything; a negative length shrinks the object. */
  function BlankFast(s: Obstack, len: int): Obstack
    requires s.free + len >= 0
  {
    s.(free := s.free + len)
  }

  // ---- finishing and freeing ------------------------------------------------

  function Finish(s: Obstack): Obstack
    requires s.base <= s.free
  {
    var up := PtrAlign(s.narrow, s.base, s.free, s.mask);
    var end := if up > s.limit then s.limit else up;
    s.(maybeEmpty := s.maybeEmpty || s.free == s.base, free := end, base := end)
  }

  /** An object of a chunk may start at p: strictly above the header, at the limit at most. */
  predicate OwnsAddress(addr: nat, limit: nat, p: nat) {
    addr < p <= limit
  }

  predicate Owns(c: Chunk, p: nat) {
    OwnsAddress(c.addr, c.limit, p)
  }

  /** Give back the newest chunks until one owns p. */
  function Unwind(chunks: seq<Chunk>, p: nat): seq<Chunk> {
    if chunks == [] || Owns(chunks[|chunks| - 1], p) then chunks
    else Unwind(chunks[..|chunks| - 1], p)
  }

  /** Unwinding stops at the newest chunk that owns p. */
  lemma {:induction false} UnwindStops(chunks: seq<Chunk>, p: nat, n: nat)
    requires n <= |chunks| && (n > 0 ==> Owns(chunks[n - 1], p))
    requires forall j | n <= j < |chunks| :: !Owns(chunks[j], p)
    ensures Unwind(chunks, p) == chunks[..n]
    decreases |chunks|
  {
    if n < |chunks| {
      UnwindStops(chunks[..|chunks| - 1], p, n);
      assert chunks[..|chunks| - 1][..n] == chunks[..n];
    }
  }

  predicate IsFast(s: Obstack, p: nat)
    requires s.chunks != []
  {
    Top(s).addr < p < s.limit
  }

  function Free(s: Obstack, p: nat): Obstack
    requires s.chunks != [] && Unwind(s.chunks, p) != []
  {
    if IsFast(s, p) then s.(base := p, free := p)
    else
      var rest := Unwind(s.chunks, p);
      s.(chunks := rest,
         base := p,
         free := p,
         limit := rest[|rest| - 1].limit,
         maybeEmpty := s.maybeEmpty || |rest| < |s.chunks|)
  }

  // ---- operations and runs --------------------------------------------------

  /** One macro call.  The operations that may overflow carry the chunk the
      allocator would answer with; Free also says which object, counted from
      the bottom of the stack, the caller means by the address. */
  datatype Op =
    | MakeRoomOp(len: nat, spare: Chunk)
    | GrowOp(bytes: seq<Byte>, spare: Chunk)
    | Grow0Op(bytes: seq<Byte>, spare: Chunk)
    | GrowFastOp(bytes: seq<Byte>)
    | BlankOp(delta: int, spare: Chunk)
    | BlankFastOp(delta: int)
    | FinishOp
    | FreeOp(p: nat, victim: nat)

  predicate Enabled(s: Obstack, op: Op)
    requires Shape(s)
  {
    match op
    case MakeRoomOp(len, spare) => Overflows(s, len) ==> Fresh(s, len, spare)
    case GrowOp(bytes, spare) => Overflows(s, |bytes|) ==> Fresh(s, |bytes|, spare)
    case Grow0Op(bytes, spare) => Overflows(s, |bytes| + 1) ==> Fresh(s, |bytes| + 1, spare)
    case GrowFastOp(bytes) => !Overflows(s, |bytes|)
    case BlankOp(delta, spare) => s.base <= s.free + delta && (Overflows(s, delta) ==> Fresh(s, delta, spare))
    case BlankFastOp(delta) => s.base <= s.free + delta && !Overflows(s, delta)
    case FinishOp => true
    case FreeOp(p, _) => Unwind(s.chunks, p) != []
  }

  function Grow(s: Obstack, bytes: seq<Byte>, spare: Chunk): Obstack
    requires Shape(s) && (Overflows(s, |bytes|) ==> Fresh(s, |bytes|, spare))
  {
    MakeRoomKeepsShape(s, |bytes|, spare);
    Append(MakeRoom(s, |bytes|, spare), bytes)
  }

  function Grow0(s: Obstack, bytes: seq<Byte>, spare: Chunk): Obstack
    requires Shape(s) && (Overflows(s, |bytes| + 1) ==> Fresh(s, |bytes| + 1, spare))
  {
    MakeRoomKeepsShape(s, |bytes| + 1, spare);
    var roomy := MakeRoom(s, |bytes| + 1, spare);
    AppendKeepsShape(roomy, bytes);
    Append(Append(roomy, bytes), [0])
  }

  function Blank(s: Obstack, delta: int, spare: Chunk): Obstack
    requires Shape(s) && s.base <= s.free + delta && (Overflows(s, delta) ==> Fresh(s, delta, spare))
  {
    MakeRoomKeepsShape(s, delta, spare);
    BlankFast(MakeRoom(s, delta, spare), delta)
  }

  function Step(s: Obstack, op: Op): Obstack
    requires Shape(s) && Enabled(s, op)
  {
    match op
    case MakeRoomOp(len, spare) => MakeRoom(s, len, spare)
    case GrowOp(bytes, spare) => Grow(s, bytes, spare)
    case Grow0Op(bytes, spare) => Grow0(s, bytes, spare)
    case GrowFastOp(bytes) => Append(s, bytes)
    case BlankOp(delta, spare) => Blank(s, delta, spare)
    case BlankFastOp(delta) => BlankFast(s, delta)
    case FinishOp => Finish(s)
    case FreeOp(p, _) => Free(s, p)
  }

  /** A freshly begun obstack: one chunk, nothing in it. */
  function Begin(narrow: bool, mask: nat, c: Chunk): Obstack
    requires Usable(narrow, mask, c)
  {
    var start := Start(narrow, mask, c);
    Obstack(narrow, mask, [c], start, start, c.limit, false)
  }

  // ---- reading back what was written ----------------------------------------

  lemma ReadWritten(c: Chunk, p: nat, bytes: seq<Byte>)
    requires |c.data| == c.limit - c.addr && c.addr <= p && p + |bytes| <= c.limit
    ensures Read(Write(c, p, bytes), p, |bytes|) == bytes
  {}

  lemma ReadBelow(c: Chunk, p: nat, bytes: seq<Byte>, q: nat, n: nat)
    requires |c.data| == c.limit - c.addr && c.addr <= p && p + |bytes| <= c.limit
    requires c.addr <= q && q + n <= p
    ensures Read(Write(c, p, bytes), q, n) == Read(c, q, n)
  {}

  lemma ReadSplit(c: Chunk, p: nat, n: nat, m: nat)
    requires |c.data| == c.limit - c.addr && c.addr <= p && p + n + m <= c.limit
    ensures Read(c, p, n + m) == Read(c, p, n) + Read(c, p + n, m)
    ensures Read(c, p, n + m)[..n] == Read(c, p, n)
  {}

  lemma ShapeBounds(s: Obstack)
    requires Shape(s)
    ensures s.chunks != [] && s.base <= s.free <= s.limit == Top(s).limit
  {}

  // ---- shape is kept --------------------------------------------------------

  lemma StartInside(narrow: bool, mask: nat, c: Chunk)
    requires Usable(narrow, mask, c)
    ensures c.addr < Start(narrow, mask, c)
  {
    BptrAlignIsLeast(if narrow then c.addr else 0, c.contents, mask);
  }

  lemma StartAligned(narrow: bool, mask: nat, c: Chunk)
    requires Usable(narrow, mask, c)
    ensures Aligned(Start(narrow, mask, c), mask)
  {
    BptrAlignIsLeast(if narrow then c.addr else 0, c.contents, mask);
    if narrow {
      CongruentToAligned(c.addr, Start(narrow, mask, c), mask);
    }
  }

  /** The first object of a chunk goes to the least aligned address behind the header. */
  lemma StartIsLeast(narrow: bool, mask: nat, c: Chunk)
    requires Usable(narrow, mask, c)
    ensures var q := Start(narrow, mask, c);
            && c.contents <= q <= c.contents + mask && Aligned(q, mask)
            && forall r: int :: c.contents <= r && Aligned(r, mask) ==> q <= r
  {
    StartAligned(narrow, mask, c);
    PtrAlignIsLeast(narrow, c.addr, c.contents, mask);
    if narrow {
      forall r: int | c.contents <= r && Aligned(r, mask)
        ensures Start(narrow, mask, c) <= r
      {
        CongruentToAligned(c.addr, r, mask);
      }
    }
  }

  lemma NewChunkKeepsShape(s: Obstack, len: int, spare: Chunk)
    requires Shape(s) && len >= 0 && Fresh(s, len, spare)
    ensures Shape(NewChunk(s, len, spare))
    ensures !Overflows(NewChunk(s, len, spare), len)
    ensures Growing(NewChunk(s, len, spare)) == Growing(s)
  {
    var start, t := Start(s.narrow, s.mask, spare), NewChunk(s, len, spare);
    StartInside(s.narrow, s.mask, spare);
    ReadWritten(spare, start, Growing(s));
    assert Top(t) == Write(spare, start, Growing(s));
  }

  lemma MakeRoomKeepsShape(s: Obstack, len: int, spare: Chunk)
    requires Shape(s) && (Overflows(s, len) ==> Fresh(s, len, spare))
    ensures Shape(MakeRoom(s, len, spare))
    ensures !Overflows(MakeRoom(s, len, spare), len)
    ensures Growing(MakeRoom(s, len, spare)) == Growing(s)
    ensures MakeRoom(s, len, spare).free - MakeRoom(s, len, spare).base == s.free - s.base
  {
    if Overflows(s, len) {
      NewChunkKeepsShape(s, len, spare);
    }
  }

  lemma AppendKeepsShape(s: Obstack, bytes: seq<Byte>)
    requires Shape(s) && !Overflows(s, |bytes|)
    ensures Shape(Append(s, bytes))
    ensures Growing(Append(s, bytes)) == Growing(s) + bytes
  {
    hide BptrAlign, PowerOfTwo;
    StartInside(s.narrow, s.mask, Top(s));
  }

  lemma FinishKeepsShape(s: Obstack)
    requires Shape(s)
    ensures Shape(Finish(s)) && Finish(s).base == Finish(s).free
  {
    hide BptrAlign, Apart;
    BptrAlignIsLeast(if s.narrow then s.base else 0, s.free, s.mask);
  }

  /** Finishing advances to the least congruent address that is not below the
      object, or to the chunk limit if that lies beyond. */
  lemma FinishIsLeast(s: Obstack)
    requires Shape(s)
    ensures var q, base := Finish(s).free, if s.narrow then s.base else 0;
            && s.free <= q <= s.limit && q <= s.free + s.mask
            && (q == s.limit || Congruent(base, q, s.mask))
            && forall r: int :: s.free <= r && Congruent(base, r, s.mask) ==> q <= r
  {
    hide BptrAlign, Apart, Start;
    PtrAlignIsLeast(s.narrow, s.base, s.free, s.mask);
  }

  /** A request is met in the current chunk if it fits there, and otherwise in
      the chunk the allocator hands out. */
  lemma NewChunkOnlyIfNeeded(s: Obstack, len: int, spare: Chunk)
    requires Shape(s) && (s.free + len > s.limit ==> Fresh(s, len, spare))
    ensures s.free + len <= s.limit ==> MakeRoom(s, len, spare) == s
    ensures s.free + len > s.limit ==>
              var t := MakeRoom(s, len, spare);
              t.chunks != [] && Top(t).addr == spare.addr && Top(t).limit == t.limit == spare.limit
  {}

  /** An object that still fits does not move: growing by n bytes, by n bytes and
      a NUL, or by a blank, changes neither the base nor the other chunks. */
  lemma ObjectStaysIfItFits(s: Obstack, bytes: seq<Byte>, delta: int, spare: Chunk)
    requires Shape(s) && s.base <= s.free + delta
    ensures s.free + |bytes| <= s.limit ==>
              var t := Grow(s, bytes, spare);
              t.base == s.base && t.free == s.free + |bytes| && |t.chunks| == |s.chunks|
              && t.chunks[..|s.chunks| - 1] == s.chunks[..|s.chunks| - 1]
    ensures s.free + |bytes| + 1 <= s.limit ==>
              var t := Grow0(s, bytes, spare);
              t.base == s.base && t.free == s.free + |bytes| + 1 && |t.chunks| == |s.chunks|
              && t.chunks[..|s.chunks| - 1] == s.chunks[..|s.chunks| - 1]
    ensures s.free + delta <= s.limit ==>
              var t := Blank(s, delta, spare);
              t.base == s.base && t.free == s.free + delta && t.chunks == s.chunks
  {
    hide Write, Usable, Apart, Start;
  }

  /** Advancing first and storing behind is appending. */
  lemma AdvanceThenStore(s: Obstack, bytes: seq<Byte>)
    requires Shape(s) && !Overflows(s, |bytes|)
    ensures Top(s).addr <= s.free
    ensures StoreTop(BlankFast(s, |bytes|), s.free, bytes) == Append(s, bytes)
  {
    StartInside(s.narrow, s.mask, Top(s));
  }
}
