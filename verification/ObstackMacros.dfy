/** The obstack macros as imperative code over one flat memory, in the two
    versions the header holds: for GNU C, and for other compilers, which use
    the `temp` slot.  Both are proved to compute the same function of the
    control block and its chunks. */
module ObstackMacros {
  import opened Alignment
  import Spec = ObstackSpec

  type Byte = Spec.Byte

  /** Where a chunk lies in memory; its bytes are the memory's. */
  datatype Header = Header(addr: nat, contents: nat, limit: nat)

  predicate Inside(h: Header, size: nat) {
    h.addr <= h.limit <= size
  }

  function Image(h: Header, m: seq<Byte>): Spec.Chunk {
    Spec.Chunk(h.addr, h.contents, h.limit, if Inside(h, |m|) then m[h.addr..h.limit] else [])
  }

  predicate AllInside(hs: seq<Header>, size: nat) {
    forall k | 0 <= k < |hs| :: Inside(hs[k], size)
  }

  function Images(hs: seq<Header>, m: seq<Byte>): (r: seq<Spec.Chunk>)
    requires AllInside(hs, |m|)
    ensures |r| == |hs| && forall k | 0 <= k < |hs| :: r[k] == Image(hs[k], m)
  {
    seq(|hs|, k requires 0 <= k < |hs| => Image(hs[k], m))
  }

  lemma ImagesOfPart(hs: seq<Header>, m: seq<Byte>, n: nat)
    requires AllInside(hs, |m|) && n <= |hs|
    ensures AllInside(hs[..n], |m|) && Images(hs[..n], m) == Images(hs, m)[..n]
    ensures hs[..|hs|] == hs && Images(hs, m)[..|hs|] == Images(hs, m)
  {}

  lemma ImagesPlus(hs: seq<Header>, h: Header, m: seq<Byte>)
    requires AllInside(hs, |m|) && Inside(h, |m|)
    ensures AllInside(hs + [h], |m|) && Images(hs + [h], m) == Images(hs, m) + [Image(h, m)]
  {}

  /** Memory after storing bytes at p. */
  ghost function Overwritten(m: seq<Byte>, p: nat, bytes: seq<Byte>): (r: seq<Byte>)
    requires p + |bytes| <= |m|
    ensures |r| == |m|
  {
    m[..p] + bytes + m[p + |bytes|..]
  }

  /** Address q belongs to one of the chunks. */
  ghost predicate Covered(hs: seq<Header>, q: nat) {
    exists k | 0 <= k < |hs| :: hs[k].addr <= q < hs[k].limit
  }

  /** No byte outside the chunks has changed. */
  ghost predicate Kept(hs: seq<Header>, m: seq<Byte>, m': seq<Byte>) {
    |m'| == |m| && forall q | 0 <= q < |m| && !Covered(hs, q) :: m'[q] == m[q]
  }

  lemma KeptSame(hs: seq<Header>, m: seq<Byte>)
    ensures Kept(hs, m, m)
  {}

  lemma KeptTwice(hs: seq<Header>, m: seq<Byte>, m': seq<Byte>, m'': seq<Byte>)
    requires Kept(hs, m, m') && Kept(hs, m', m'')
    ensures Kept(hs, m, m'')
  {}

  lemma KeptByStore(hs: seq<Header>, k: nat, m: seq<Byte>, p: nat, bytes: seq<Byte>)
    requires k < |hs| && hs[k].addr <= p && p + |bytes| <= hs[k].limit <= |m|
    ensures Kept(hs, m, Overwritten(m, p, bytes))
  {
    forall q | 0 <= q < |m| && !Covered(hs, q)
      ensures Overwritten(m, p, bytes)[q] == m[q]
    {
      assert !(hs[k].addr <= q < hs[k].limit);
    }
  }

  lemma ImageStoredInside(h: Header, m: seq<Byte>, p: nat, bytes: seq<Byte>)
    requires Inside(h, |m|) && h.addr <= p && p + |bytes| <= h.limit
    ensures Image(h, Overwritten(m, p, bytes)) == Spec.Write(Image(h, m), p, bytes)
  {}

  lemma ImageStoredOutside(h: Header, m: seq<Byte>, p: nat, bytes: seq<Byte>)
    requires Inside(h, |m|) && p + |bytes| <= |m|
    requires h.limit <= p || p + |bytes| <= h.addr
    ensures Image(h, Overwritten(m, p, bytes)) == Image(h, m)
  {
    var m' := Overwritten(m, p, bytes);
    assert m'[h.addr..h.limit] == m[h.addr..h.limit];
  }

  /** memcpy */
  method CopyInto(dst: array<Byte>, at: nat, src: seq<Byte>)
    requires at + |src| <= dst.Length
    modifies dst
    ensures dst[..] == Overwritten(old(dst[..]), at, src)
  {
    for i := 0 to |src|
      invariant forall j | 0 <= j < i :: dst[at + j] == src[j]
      invariant forall j | 0 <= j < dst.Length && !(at <= j < at + i) :: dst[j] == old(dst[j])
    {
      dst[at + i] := src[i];
    }
  }

  /** Walk the prev chain from the newest chunk to the one that owns the object. */
  method FindOwner(hs: seq<Header>, obj: nat) returns (lp: nat)
    ensures lp <= |hs| && (lp > 0 ==> Spec.OwnsAddress(hs[lp - 1].addr, hs[lp - 1].limit, obj))
    ensures forall k | lp <= k < |hs| :: !Spec.OwnsAddress(hs[k].addr, hs[k].limit, obj)
  {
    lp := |hs|;
    while lp > 0 && (hs[lp - 1].addr >= obj || hs[lp - 1].limit < obj)
      invariant lp <= |hs| && forall k | lp <= k < |hs| :: !Spec.OwnsAddress(hs[k].addr, hs[k].limit, obj)
    {
      lp := lp - 1;
    }
  }

  lemma UnwindImages(hs: seq<Header>, m: seq<Byte>, obj: nat, lp: nat)
    requires AllInside(hs, |m|)
    requires lp <= |hs| && (lp > 0 ==> Spec.OwnsAddress(hs[lp - 1].addr, hs[lp - 1].limit, obj))
    requires forall k | lp <= k < |hs| :: !Spec.OwnsAddress(hs[k].addr, hs[k].limit, obj)
    ensures AllInside(hs[..lp], |m|) && Spec.Unwind(Images(hs, m), obj) == Images(hs[..lp], m)
  {
    ImagesOfPart(hs, m, lp);
    forall k | lp <= k < |hs|
      ensures !Spec.Owns(Images(hs, m)[k], obj)
    {
      assert !Spec.OwnsAddress(hs[k].addr, hs[k].limit, obj);
    }
    Spec.UnwindStops(Images(hs, m), obj, lp);
  }

  /** struct obstack.  `chunks` is the prev chain; its last element is `chunk`. */
  class ObstackControl {
    const narrow: bool
    const alignmentMask: nat
    const memory: array<Byte>
    var chunks: seq<Header>
    var objectBase: nat
    var nextFree: nat
    var chunkLimit: nat
    var temp: int
    var maybeEmptyObject: bool

    predicate Valid()
      reads this, memory
    {
      AllInside(chunks, memory.Length) && Spec.Shape(View())
    }

    function View(): Spec.Obstack
      reads this, memory
      requires AllInside(chunks, memory.Length)
    {
      Spec.Obstack(narrow, alignmentMask, Images(chunks, memory[..]), objectBase, nextFree, chunkLimit,
                   maybeEmptyObject)
    }

    function Chunk(): Header
      reads this
      requires chunks != []
    {
      chunks[|chunks| - 1]
    }

    /** The allocator's answer lies in memory and is good for len more bytes. */
    ghost predicate Ready(len: int, spare: Header)
      reads this, memory
      requires Valid()
    {
      Spec.Overflows(View(), len) ==>
        Inside(spare, memory.Length) && Spec.Fresh(View(), len, Image(spare, memory[..]))
    }

    /** obstack_begin, with the first chunk already allocated. */
    constructor (narrow: bool, mask: nat, memory: array<Byte>, first: Header)
      requires Inside(first, memory.Length) && Spec.Usable(narrow, mask, Image(first, memory[..]))
      ensures this.memory == memory && Valid()
      ensures View() == Spec.Begin(narrow, mask, Image(first, memory[..]))
      ensures chunks == [first] && objectBase == nextFree && !maybeEmptyObject
    {
      this.narrow, alignmentMask, this.memory, chunks, chunkLimit := narrow, mask, memory, [first], first.limit;
      objectBase := PtrAlign(narrow, first.addr, first.contents, mask);
      nextFree := PtrAlign(narrow, first.addr, first.contents, mask);
      temp, maybeEmptyObject := 0, false;
    }

    /** memcpy into the room left in the current chunk. */
    method StoreAt(p: nat, src: seq<Byte>)
      requires Valid() && objectBase <= p && p + |src| <= chunkLimit
      modifies memory
      ensures Spec.Top(old(View())).addr <= p
      ensures View() == Spec.StoreTop(old(View()), p, src)
      ensures Kept(chunks, old(memory[..]), memory[..])
    {
      hide Images, Overwritten, Spec.Write, Spec.Apart, Spec.Start, Kept;
      ghost var s := View();
      assert chunkLimit <= memory.Length;
      Spec.StartInside(narrow, alignmentMask, Spec.Top(s));
      CopyInto(memory, p, src);
      StoredInTop(chunks, old(memory[..]), s, p, src);
      KeptByStore(chunks, |chunks| - 1, old(memory[..]), p, src);
    }

    /** memcpy to next_free, followed by moving it behind the stored bytes. */
    method StoreAndAdvance(src: seq<Byte>)
      requires Valid() && !Spec.Overflows(View(), |src|)
      modifies this`nextFree, memory
      ensures Valid()
      ensures View() == Spec.Append(old(View()), src)
      ensures Kept(chunks, old(memory[..]), memory[..])
    {
      hide Images, Image, Kept, Spec.StoreTop, Spec.Shape;
      ghost var s := View();
      Spec.ShapeBounds(s);
      StoreAt(nextFree, src);
      nextFree := nextFree + |src|;
      Spec.AppendKeepsShape(s, src);
    }

    /** memcpy behind a next_free that has been moved already. */
    method StoreBehind(src: seq<Byte>, ghost s: Spec.Obstack)
      requires Spec.Shape(s) && !Spec.Overflows(s, |src|)
      requires Valid() && View() == Spec.BlankFast(s, |src|)
      modifies memory
      ensures Valid()
      ensures View() == Spec.Append(s, src)
      ensures Kept(chunks, old(memory[..]), memory[..])
    {
      hide Images, Image, Kept, Spec.Shape, Spec.StoreTop, Spec.Append;
      Spec.ShapeBounds(s);
      StoreAt(nextFree - |src|, src);
      assert View() == Spec.Append(s, src) by {
        Spec.AdvanceThenStore(s, src);
      }
      assert Valid() by {
        Spec.AppendKeepsShape(s, src);
      }
    }

    /** Copy the partly formed object to another chunk. */
    method MovePartial(spare: Header, start: nat)
      requires Valid() && Inside(spare, memory.Length)
      requires spare.addr <= start && start + (nextFree - objectBase) <= spare.limit
      requires forall k | 0 <= k < |chunks| :: Spec.Apart(View().chunks[k], Image(spare, memory[..]))
      modifies memory
      ensures View() == old(View())
      ensures Image(spare, memory[..]) == Spec.Write(Image(spare, old(memory[..])), start, Spec.Growing(View()))
      ensures memory[..] == Overwritten(old(memory[..]), start, Spec.Growing(View()))
    {
      GrowingInMemory(chunks, memory[..], View());
      MovedToSpare(chunks, memory[..], View(), spare, start);
      CopyInto(memory, start, memory[objectBase..nextFree]);
    }

    /** Make another chunk the current one, behind or instead of the old one. */
    method Install(spare: Header, start: nat, drop: bool)
      requires Valid() && Inside(spare, memory.Length)
      modifies this`chunks, this`objectBase, this`nextFree, this`chunkLimit, this`maybeEmptyObject
      ensures chunks == (if drop then old(chunks)[..|old(chunks)| - 1] else old(chunks)) + [spare]
      ensures AllInside(chunks, memory.Length)
      ensures var s := old(View());
              var kept := if drop then s.chunks[..|s.chunks| - 1] else s.chunks;
              View() == s.(chunks := kept + [Image(spare, memory[..])],
                           base := start, free := start + (s.free - s.base), limit := spare.limit,
                           maybeEmpty := false)
    {
      hide Images, Spec.Usable, Spec.Apart, Spec.Start;
      var size := nextFree - objectBase;
      var kept := if drop then chunks[..|chunks| - 1] else chunks;
      ImagesOfPart(chunks, memory[..], |kept|);
      ImagesPlus(kept, spare, memory[..]);
      chunks, chunkLimit, objectBase, nextFree := kept + [spare], spare.limit, start, start + size;
      maybeEmptyObject := false;
    }

    method Relocate(spare: Header, start: nat, drop: bool)
      requires Valid() && Inside(spare, memory.Length)
      requires spare.addr <= start && start + (nextFree - objectBase) <= spare.limit
      requires forall k | 0 <= k < |chunks| :: Spec.Apart(View().chunks[k], Image(spare, memory[..]))
      modifies this`chunks, this`objectBase, this`nextFree, this`chunkLimit, this`maybeEmptyObject, memory
      ensures AllInside(chunks, memory.Length)
      ensures View() == Spec.Moved(old(View()), Image(spare, old(memory[..])), start, drop)
      ensures Kept(chunks, old(memory[..]), memory[..])
    {
      hide Images, Overwritten, Kept, Spec.Shape, Spec.Growing, Spec.Write, Spec.Apart;
      ghost var bytes := Spec.Growing(View());
      MovePartial(spare, start);
      Install(spare, start, drop);
      KeptByStore(chunks, |chunks| - 1, old(memory[..]), start, bytes);
    }

    /** _obstack_newchunk: move the partial object to the start of the chunk the
        allocator returned; give the old chunk back if it held nothing else. */
    method NewChunk(len: int, spare: Header)
      requires Valid() && len >= 0
      requires Inside(spare, memory.Length) && Spec.Fresh(View(), len, Image(spare, memory[..]))
      modifies this`chunks, this`objectBase, this`nextFree, this`chunkLimit, this`maybeEmptyObject, memory
      ensures Valid()
      ensures View() == Spec.NewChunk(old(View()), len, Image(spare, old(memory[..])))
      ensures Kept(chunks, old(memory[..]), memory[..])
    {
      hide Images, Kept, BptrAlign, Spec.Apart, Spec.Moved;
      Spec.StartInside(narrow, alignmentMask, Image(spare, memory[..]));
      Spec.NewChunkKeepsShape(View(), len, Image(spare, memory[..]));
      var start := PtrAlign(narrow, spare.addr, spare.contents, alignmentMask);
      var drop := !maybeEmptyObject && objectBase == PtrAlign(narrow, Chunk().addr, Chunk().contents, alignmentMask);
      Relocate(spare, start, drop);
    }

    method SetTemp(value: int)
      requires Valid()
      modifies this`temp
      ensures temp == value && Valid() && View() == old(View())
    {
      hide Images, Spec.Shape;
      temp := value;
    }

    /** obstack_free once its test has been made. */
    method FreeBy(obj: nat, fast: bool)
      requires Valid() && Spec.Unwind(View().chunks, obj) != [] && fast == Spec.IsFast(View(), obj)
      modifies this`chunks, this`objectBase, this`nextFree, this`chunkLimit, this`maybeEmptyObject
      ensures AllInside(chunks, memory.Length) && View() == Spec.Free(old(View()), obj)
    {
      hide Images, Spec.Unwind, Spec.Usable, Spec.Apart, Spec.Start;
      if fast {
        Rewind(obj);
      } else {
        SlowFree(obj);
      }
    }

    /** The fast path of obstack_free. */
    method Rewind(obj: nat)
      requires Valid() && Chunk().addr < obj < chunkLimit
      modifies this`objectBase, this`nextFree
      ensures AllInside(chunks, memory.Length)
      ensures View() == old(View()).(base := obj, free := obj)
      ensures Spec.IsFast(old(View()), obj)
    {
      hide Images, Spec.Usable, Spec.Apart, Spec.Start;
      nextFree, objectBase := obj, obj;
    }

    /** __obstack_free: give back chunks until one owns the object, then unwind to it. */
    method SlowFree(obj: nat)
      requires AllInside(chunks, memory.Length) && Spec.Unwind(View().chunks, obj) != []
      modifies this`chunks, this`objectBase, this`nextFree, this`chunkLimit, this`maybeEmptyObject
      ensures AllInside(chunks, memory.Length)
      ensures var rest := Spec.Unwind(old(View()).chunks, obj);
              View() == old(View()).(chunks := rest, base := obj, free := obj, limit := rest[|rest| - 1].limit,
                                     maybeEmpty := old(maybeEmptyObject) || |rest| < |old(chunks)|)
    {
      hide Images, Spec.Unwind;
      var lp := FindOwner(chunks, obj);
      UnwindImages(chunks, memory[..], obj, lp);
      if lp < |chunks| {
        maybeEmptyObject := true;
      }
      chunks, objectBase, nextFree, chunkLimit := chunks[..lp], obj, obj, chunks[lp - 1].limit;
    }

    // ---- unchecked steps, the same for every compiler -------------------------

    /** obstack_1grow_fast */
    method Grow1Fast(b: Byte)
      requires Valid() && !Spec.Overflows(View(), 1)
      modifies this`nextFree, memory
      ensures Valid()
      ensures View() == Spec.Append(old(View()), [b])
      ensures Kept(chunks, old(memory[..]), memory[..])
    {
      StoreAndAdvance([b]);
    }

    /** obstack_blank_fast */
    method BlankFast(len: int)
      requires Valid() && objectBase <= nextFree + len && !Spec.Overflows(View(), len)
      modifies this`nextFree
      ensures Valid()
      ensures View() == Spec.BlankFast(old(View()), len)
    {
      hide Images, Image, Spec.Usable, Spec.Apart, Spec.Start;
      nextFree := nextFree + len;
    }

    // ---- the macros for GNU C -----------------------------------------------

    method GnuMakeRoom(len: int, spare: Header)
      requires Valid() && Ready(len, spare)
      modifies this`chunks, this`objectBase, this`nextFree, this`chunkLimit, this`maybeEmptyObject, memory
      ensures Valid()
      ensures View() == Spec.MakeRoom(old(View()), len, Image(spare, old(memory[..])))
      ensures Kept(chunks, old(memory[..]), memory[..])
    {
      hide Kept, Images, Image, Spec.NewChunk;
      KeptSame(chunks, memory[..]);
      if chunkLimit - nextFree < len {
        NewChunk(len, spare);
      }
    }

    method GnuGrow(src: seq<Byte>, spare: Header)
      requires Valid() && Ready(|src|, spare)
      modifies this`chunks, this`objectBase, this`nextFree, this`chunkLimit, this`maybeEmptyObject, memory
      ensures Valid()
      ensures View() == Spec.Grow(old(View()), src, Image(spare, old(memory[..])))
      ensures Kept(chunks, old(memory[..]), memory[..])
    {
      hide Kept, Images, Image, Spec.NewChunk, Spec.Append;
      Spec.MakeRoomKeepsShape(View(), |src|, Image(spare, memory[..]));
      KeptSame(chunks, memory[..]);
      if nextFree + |src| > chunkLimit {
        NewChunk(|src|, spare);
      }
      ghost var m := memory[..];
      StoreAndAdvance(src);
      KeptTwice(chunks, old(memory[..]), m, memory[..]);
    }

    method GnuGrow0(src: seq<Byte>, spare: Header)
      requires Valid() && Ready(|src| + 1, spare)
      modifies this`chunks, this`objectBase, this`nextFree, this`chunkLimit, this`maybeEmptyObject, memory
      ensures Valid()
      ensures View() == Spec.Grow0(old(View()), src, Image(spare, old(memory[..])))
      ensures Kept(chunks, old(memory[..]), memory[..])
    {
      hide Kept, Images, Image, Spec.NewChunk, Spec.StoreTop;
      Spec.MakeRoomKeepsShape(View(), |src| + 1, Image(spare, memory[..]));
      KeptSame(chunks, memory[..]);
      if nextFree + |src| + 1 > chunkLimit {
        NewChunk(|src| + 1, spare);
      }
      ghost var m := memory[..];
      StoreAndAdvance(src);
      KeptTwice(chunks, old(memory[..]), m, memory[..]);
      m := memory[..];
      StoreAndAdvance([0]);
      KeptTwice(chunks, old(memory[..]), m, memory[..]);
    }

    method GnuGrow1(b: Byte, spare: Header)
      requires Valid() && Ready(1, spare)
      modifies this`chunks, this`objectBase, this`nextFree, this`chunkLimit, this`maybeEmptyObject, memory
      ensures Valid()
      ensures View() == Spec.Grow(old(View()), [b], Image(spare, old(memory[..])))
      ensures Kept(chunks, old(memory[..]), memory[..])
    {
      hide Kept, Images, Image, Spec.NewChunk, Spec.Append;
      Spec.MakeRoomKeepsShape(View(), 1, Image(spare, memory[..]));
      KeptSame(chunks, memory[..]);
      if nextFree + 1 > chunkLimit {
        NewChunk(1, spare);
      }
      ghost var m := memory[..];
      Grow1Fast(b);
      KeptTwice(chunks, old(memory[..]), m, memory[..]);
    }

    /** obstack_ptr_grow_fast and obstack_int_grow_fast: store, then advance. */
    method GnuWordGrowFast(word: seq<Byte>)
      requires Valid() && !Spec.Overflows(View(), |word|)
      modifies this`nextFree, memory
      ensures Valid()
      ensures View() == Spec.Append(old(View()), word)
      ensures Kept(chunks, old(memory[..]), memory[..])
    {
      hide Kept, Images, Image, Overwritten, Spec.Write, Spec.Usable, Spec.Start;
      StoreAndAdvance(word);
    }

    /** obstack_ptr_grow and obstack_int_grow, given the bytes of the datum. */
    method GnuWordGrow(word: seq<Byte>, spare: Header)
      requires Valid() && Ready(|word|, spare)
      modifies this`chunks, this`objectBase, this`nextFree, this`chunkLimit, this`maybeEmptyObject, memory
      ensures Valid()
      ensures View() == Spec.Grow(old(View()), word, Image(spare, old(memory[..])))
      ensures Kept(chunks, old(memory[..]), memory[..])
    {
      hide Kept, Images, Image, Spec.NewChunk, Spec.Append;
      Spec.MakeRoomKeepsShape(View(), |word|, Image(spare, memory[..]));
      KeptSame(chunks, memory[..]);
      if nextFree + |word| > chunkLimit {
        NewChunk(|word|, spare);
      }
      ghost var m := memory[..];
      GnuWordGrowFast(word);
      KeptTwice(chunks, old(memory[..]), m, memory[..]);
    }

    method GnuBlank(len: int, spare: Header)
      requires Valid() && objectBase <= nextFree + len && Ready(len, spare)
      modifies this`chunks, this`objectBase, this`nextFree, this`chunkLimit, this`maybeEmptyObject, memory
      ensures Valid()
      ensures View() == Spec.Blank(old(View()), len, Image(spare, old(memory[..])))
      ensures Kept(chunks, old(memory[..]), memory[..])
    {
      hide Kept, Images, Image, Spec.NewChunk;
      Spec.MakeRoomKeepsShape(View(), len, Image(spare, memory[..]));
      KeptSame(chunks, memory[..]);
      if chunkLimit - nextFree < len {
        NewChunk(len, spare);
      }
      BlankFast(len);
    }

    method GnuFinish() returns (value: nat)
      requires Valid()
      modifies this`objectBase, this`nextFree, this`maybeEmptyObject
      ensures Valid()
      ensures View() == Spec.Finish(old(View()))
      ensures value == old(objectBase)
    {
      hide Images, Image, BptrAlign, Spec.Usable, Spec.Apart, Spec.Start;
      Spec.FinishKeepsShape(View());
      value := objectBase;
      if nextFree == value {
        maybeEmptyObject := true;
      }
      nextFree := PtrAlign(narrow, objectBase, nextFree, alignmentMask);
      if nextFree - Chunk().addr > chunkLimit - Chunk().addr {
        nextFree := chunkLimit;
      }
      objectBase := nextFree;
    }

    method GnuFree(obj: nat)
      requires Valid() && Spec.Unwind(View().chunks, obj) != []
      modifies this`chunks, this`objectBase, this`nextFree, this`chunkLimit, this`maybeEmptyObject
      ensures AllInside(chunks, memory.Length) && View() == Spec.Free(old(View()), obj)
    {
      hide Images, Spec.Unwind, Spec.Usable, Spec.Apart, Spec.Start, Spec.Free;
      FreeBy(obj, obj > Chunk().addr && obj < chunkLimit);
    }

    method GnuAlloc(len: int, spare: Header) returns (value: nat)
      requires Valid() && objectBase <= nextFree + len && Ready(len, spare)
      modifies this`chunks, this`objectBase, this`nextFree, this`chunkLimit, this`maybeEmptyObject, memory
      ensures Valid()
      ensures var built := Spec.Blank(old(View()), len, Image(spare, old(memory[..])));
              View() == Spec.Finish(built) && value == built.base
      ensures Kept(chunks, old(memory[..]), memory[..])
    {
      hide Kept, Images, Image, Spec.NewChunk, Spec.Finish, Spec.Grow, Spec.Grow0, Spec.Blank;
      GnuBlank(len, spare);
      value := GnuFinish();
    }

    method GnuCopy(src: seq<Byte>, spare: Header) returns (value: nat)
      requires Valid() && Ready(|src|, spare)
      modifies this`chunks, this`objectBase, this`nextFree, this`chunkLimit, this`maybeEmptyObject, memory
      ensures Valid()
      ensures var built := Spec.Grow(old(View()), src, Image(spare, old(memory[..])));
              View() == Spec.Finish(built) && value == built.base
      ensures Kept(chunks, old(memory[..]), memory[..])
    {
      hide Kept, Images, Image, Spec.NewChunk, Spec.Finish, Spec.Grow, Spec.Grow0, Spec.Blank;
      GnuGrow(src, spare);
      value := GnuFinish();
    }

    method GnuCopy0(src: seq<Byte>, spare: Header) returns (value: nat)
      requires Valid() && Ready(|src| + 1, spare)
      modifies this`chunks, this`objectBase, this`nextFree, this`chunkLimit, this`maybeEmptyObject, memory
      ensures Valid()
      ensures var built := Spec.Grow0(old(View()), src, Image(spare, old(memory[..])));
              View() == Spec.Finish(built) && value == built.base
      ensures Kept(chunks, old(memory[..]), memory[..])
    {
      hide Kept, Images, Image, Spec.NewChunk, Spec.Finish, Spec.Grow, Spec.Grow0, Spec.Blank;
      GnuGrow0(src, spare);
      value := GnuFinish();
    }

    // ---- the macros for other compilers, which go through `temp` ------------

    method PortableMakeRoom(len: int, spare: Header)
      requires Valid() && Ready(len, spare)
      modifies this, memory
      ensures Valid()
      ensures View() == Spec.MakeRoom(old(View()), len, Image(spare, old(memory[..])))
      ensures Kept(chunks, old(memory[..]), memory[..])
    {
      hide Kept, Images, Image, Spec.NewChunk;
      temp := len;
      KeptSame(chunks, memory[..]);
      if nextFree + temp > chunkLimit {
        NewChunk(temp, spare);
      }
    }

    method PortableGrow(src: seq<Byte>, spare: Header)
      requires Valid() && Ready(|src|, spare)
      modifies this, memory
      ensures Valid()
      ensures View() == Spec.Grow(old(View()), src, Image(spare, old(memory[..])))
      ensures Kept(chunks, old(memory[..]), memory[..])
    {
      hide Kept, Images, Image, Spec.NewChunk, Spec.Append;
      Spec.MakeRoomKeepsShape(View(), |src|, Image(spare, memory[..]));
      temp := |src|;
      KeptSame(chunks, memory[..]);
      if nextFree + temp > chunkLimit {
        NewChunk(temp, spare);
      }
      assert src[..temp] == src;
      ghost var m := memory[..];
      StoreAndAdvance(src[..temp]);
      KeptTwice(chunks, old(memory[..]), m, memory[..]);
    }

    method PortableGrow0(src: seq<Byte>, spare: Header)
      requires Valid() && Ready(|src| + 1, spare)
      modifies this, memory
      ensures Valid()
      ensures View() == Spec.Grow0(old(View()), src, Image(spare, old(memory[..])))
      ensures Kept(chunks, old(memory[..]), memory[..])
    {
      hide Kept, Images, Image, Spec.NewChunk, Spec.StoreTop;
      Spec.MakeRoomKeepsShape(View(), |src| + 1, Image(spare, memory[..]));
      temp := |src|;
      KeptSame(chunks, memory[..]);
      if nextFree + temp + 1 > chunkLimit {
        NewChunk(temp + 1, spare);
      }
      assert src[..temp] == src;
      ghost var m := memory[..];
      StoreAndAdvance(src[..temp]);
      KeptTwice(chunks, old(memory[..]), m, memory[..]);
      m := memory[..];
      StoreAndAdvance([0]);
      KeptTwice(chunks, old(memory[..]), m, memory[..]);
    }

    method PortableGrow1(b: Byte, spare: Header)
      requires Valid() && Ready(1, spare)
      modifies this`chunks, this`objectBase, this`nextFree, this`chunkLimit, this`maybeEmptyObject, memory
      ensures Valid()
      ensures View() == Spec.Grow(old(View()), [b], Image(spare, old(memory[..])))
      ensures Kept(chunks, old(memory[..]), memory[..])
    {
      hide Kept, Images, Image, Spec.NewChunk, Spec.Append;
      Spec.MakeRoomKeepsShape(View(), 1, Image(spare, memory[..]));
      KeptSame(chunks, memory[..]);
      if nextFree + 1 > chunkLimit {
        NewChunk(1, spare);
      }
      ghost var m := memory[..];
      Grow1Fast(b);
      KeptTwice(chunks, old(memory[..]), m, memory[..]);
    }

    /** obstack_ptr_grow_fast and obstack_int_grow_fast: advance, then store behind. */
    method PortableWordGrowFast(word: seq<Byte>)
      requires Valid() && !Spec.Overflows(View(), |word|)
      modifies this`nextFree, memory
      ensures Valid()
      ensures View() == Spec.Append(old(View()), word)
      ensures Kept(chunks, old(memory[..]), memory[..])
    {
      hide Kept, Images, Image, Spec.Append, Spec.Usable, Spec.Apart, Spec.Start;
      ghost var s := View();
      BlankFast(|word|);
      StoreBehind(word, s);
    }

    /** obstack_ptr_grow and obstack_int_grow, given the bytes of the datum. */
    method PortableWordGrow(word: seq<Byte>, spare: Header)
      requires Valid() && Ready(|word|, spare)
      modifies this`chunks, this`objectBase, this`nextFree, this`chunkLimit, this`maybeEmptyObject, memory
      ensures Valid()
      ensures View() == Spec.Grow(old(View()), word, Image(spare, old(memory[..])))
      ensures Kept(chunks, old(memory[..]), memory[..])
    {
      hide Kept, Images, Image, Spec.NewChunk, Spec.Append;
      Spec.MakeRoomKeepsShape(View(), |word|, Image(spare, memory[..]));
      KeptSame(chunks, memory[..]);
      if nextFree + |word| > chunkLimit {
        NewChunk(|word|, spare);
      }
      ghost var m := memory[..];
      PortableWordGrowFast(word);
      KeptTwice(chunks, old(memory[..]), m, memory[..]);
    }

    method PortableBlank(len: int, spare: Header)
      requires Valid() && objectBase <= nextFree + len && Ready(len, spare)
      modifies this, memory
      ensures Valid()
      ensures View() == Spec.Blank(old(View()), len, Image(spare, old(memory[..])))
      ensures Kept(chunks, old(memory[..]), memory[..])
    {
      hide Kept, Images, Image, Spec.NewChunk;
      Spec.MakeRoomKeepsShape(View(), len, Image(spare, memory[..]));
      temp := len;
      KeptSame(chunks, memory[..]);
      if chunkLimit - nextFree < temp {
        NewChunk(temp, spare);
      }
      BlankFast(temp);
    }

    method PortableFinish() returns (value: nat)
      requires Valid()
      modifies this`objectBase, this`nextFree, this`maybeEmptyObject, this`temp
      ensures Valid()
      ensures View() == Spec.Finish(old(View()))
      ensures value == old(objectBase)
    {
      hide Images, Image, BptrAlign, Spec.Usable, Spec.Apart, Spec.Start;
      Spec.FinishKeepsShape(View());
      if nextFree == objectBase {
        maybeEmptyObject := true;
      }
      temp := objectBase;
      nextFree := PtrAlign(narrow, objectBase, nextFree, alignmentMask);
      if nextFree - Chunk().addr > chunkLimit - Chunk().addr {
        nextFree := chunkLimit;
      }
      objectBase := nextFree;
      value := temp;
    }

    method PortableFree(obj: nat)
      requires Valid() && Spec.Unwind(View().chunks, obj) != []
      modifies this
      ensures AllInside(chunks, memory.Length) && View() == Spec.Free(old(View()), obj)
    {
      hide Images, Spec.Unwind, Spec.Usable, Spec.Apart, Spec.Start, Spec.Free;
      assert Chunk().addr == Spec.Top(View()).addr && chunkLimit == View().limit;
      hide Image, Spec.Shape, Spec.Top;
      SetTemp(obj - Chunk().addr);
      FreeBy(temp + Chunk().addr, temp > 0 && temp < chunkLimit - Chunk().addr);
    }

    method PortableAlloc(len: int, spare: Header) returns (value: nat)
      requires Valid() && objectBase <= nextFree + len && Ready(len, spare)
      modifies this, memory
      ensures Valid()
      ensures var built := Spec.Blank(old(View()), len, Image(spare, old(memory[..])));
              View() == Spec.Finish(built) && value == built.base
      ensures Kept(chunks, old(memory[..]), memory[..])
    {
      hide Kept, Images, Image, Spec.NewChunk, Spec.Finish, Spec.Grow, Spec.Grow0, Spec.Blank;
      PortableBlank(len, spare);
      value := PortableFinish();
    }

    method PortableCopy(src: seq<Byte>, spare: Header) returns (value: nat)
      requires Valid() && Ready(|src|, spare)
      modifies this, memory
      ensures Valid()
      ensures var built := Spec.Grow(old(View()), src, Image(spare, old(memory[..])));
              View() == Spec.Finish(built) && value == built.base
      ensures Kept(chunks, old(memory[..]), memory[..])
    {
      hide Kept, Images, Image, Spec.NewChunk, Spec.Finish, Spec.Grow, Spec.Grow0, Spec.Blank;
      PortableGrow(src, spare);
      value := PortableFinish();
    }

    method PortableCopy0(src: seq<Byte>, spare: Header) returns (value: nat)
      requires Valid() && Ready(|src| + 1, spare)
      modifies this, memory
      ensures Valid()
      ensures var built := Spec.Grow0(old(View()), src, Image(spare, old(memory[..])));
              View() == Spec.Finish(built) && value == built.base
      ensures Kept(chunks, old(memory[..]), memory[..])
    {
      hide Kept, Images, Image, Spec.NewChunk, Spec.Finish, Spec.Grow, Spec.Grow0, Spec.Blank;
      PortableGrow0(src, spare);
      value := PortableFinish();
    }
  }

  /** Bytes stored in the top chunk change no other chunk. */
  lemma StoredInTop(hs: seq<Header>, m: seq<Byte>, s: Spec.Obstack, p: nat, bytes: seq<Byte>)
    requires AllInside(hs, |m|) && Spec.Shape(s) && s.chunks == Images(hs, m)
    requires Spec.Top(s).addr <= p && p + |bytes| <= s.limit
    ensures Images(hs, Overwritten(m, p, bytes)) == Spec.StoreTop(s, p, bytes).chunks
  {
    var n, m' := |hs| - 1, Overwritten(m, p, bytes);
    forall k | 0 <= k < n
      ensures Image(hs[k], m') == s.chunks[k]
    {
      assert Spec.Apart(s.chunks[k], s.chunks[n]);
      ImageStoredOutside(hs[k], m, p, bytes);
    }
    ImageStoredInside(hs[n], m, p, bytes);
    hide Images, Image, Spec.Write, Spec.Shape, Overwritten;
    assert Images(hs, m') == s.chunks[..n] + [Spec.Write(s.chunks[n], p, bytes)];
  }

  /** The partial object stored in another chunk changes no chunk of the chain. */
  lemma MovedToSpare(hs: seq<Header>, m: seq<Byte>, s: Spec.Obstack, spare: Header, start: nat)
    requires AllInside(hs, |m|) && Spec.Shape(s) && s.chunks == Images(hs, m) && Inside(spare, |m|)
    requires spare.addr <= start && start + (s.free - s.base) <= spare.limit
    requires forall k | 0 <= k < |hs| :: Spec.Apart(s.chunks[k], Image(spare, m))
    ensures Images(hs, Overwritten(m, start, Spec.Growing(s))) == s.chunks
    ensures Image(spare, Overwritten(m, start, Spec.Growing(s))) == Spec.Write(Image(spare, m), start, Spec.Growing(s))
  {
    var m' := Overwritten(m, start, Spec.Growing(s));
    forall k | 0 <= k < |hs|
      ensures Image(hs[k], m') == s.chunks[k]
    {
      ImageStoredOutside(hs[k], m, start, Spec.Growing(s));
    }
    ImageStoredInside(spare, m, start, Spec.Growing(s));
  }

  lemma SliceOfSlice(m: seq<Byte>, lo: nat, hi: nat, p: nat, q: nat)
    requires lo <= p <= q <= hi <= |m|
    ensures m[lo..hi][p - lo..q - lo] == m[p..q]
  {
    var l, r := m[lo..hi][p - lo..q - lo], m[p..q];
    assert forall i | 0 <= i < q - p :: l[i] == r[i];
  }

  lemma GrowingInMemory(hs: seq<Header>, m: seq<Byte>, s: Spec.Obstack)
    requires AllInside(hs, |m|) && Spec.Shape(s) && s.chunks == Images(hs, m)
    ensures s.base <= s.free <= |m| && m[s.base..s.free] == Spec.Growing(s)
  {
    hide Spec.Start, Spec.Apart, PowerOfTwo;
    Spec.StartInside(s.narrow, s.mask, Spec.Top(s));
    var h := hs[|hs| - 1];
    assert Spec.Top(s) == Image(h, m);
    SliceOfSlice(m, h.addr, h.limit, s.base, s.free);
  }
}
