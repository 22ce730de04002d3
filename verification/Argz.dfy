/** Iterating over an argz vector: strings, each followed by a NUL, one after
    the other in memory. */
module Argz {

  const NUL := '\0'

  datatype Pointer = Null | At(addr: nat)

  // ---- memory -------------------------------------------------------------------

  /** A NUL lies at or after p, so p points to a string. */
  predicate Terminated(m: string, p: nat) {
    exists q | p <= q < |m| :: m[q] == NUL
  }

  /** strchr (p, '\0') */
  function NulAfter(m: string, p: nat): (q: nat)
    requires Terminated(m, p)
    ensures p <= q < |m| && m[q] == NUL && forall i | p <= i < q :: m[i] != NUL
    decreases |m| - p
  {
    if m[p] == NUL then p else NulAfter(m, p + 1)
  }

  function StringAt(m: string, p: nat): (s: string)
    requires Terminated(m, p)
    ensures NUL !in s
  {
    m[p..NulAfter(m, p)]
  }

  /** The vector of this length at argz is a sequence of strings. */
  predicate IsVector(m: string, argz: nat, len: nat) {
    argz + len <= |m| && (len > 0 ==> m[argz + len - 1] == NUL)
  }

  // ---- argz_next ------------------------------------------------------------------

  function ArgzNext(m: string, argz: Pointer, len: nat, entry: Pointer): Pointer
    requires argz.Null? ==> len == 0 && entry.Null?
    requires argz.At? && entry.At? && entry.addr < argz.addr + len ==> Terminated(m, entry.addr)
  {
    if entry.At? then
      var e := if entry.addr < argz.addr + len then NulAfter(m, entry.addr) + 1 else entry.addr;
      if e >= argz.addr + len then Null else At(e)
    else if len > 0 then argz
    else Null
  }

  lemma InsideIsTerminated(m: string, argz: nat, len: nat, p: nat)
    requires IsVector(m, argz, len) && argz <= p < argz + len
    ensures Terminated(m, p) && NulAfter(m, p) < argz + len
  {
    assert m[argz + len - 1] == NUL;
  }

  /** From any pointer into the vector, argz_next strictly advances to just
      behind the string there, or ends; the string and its NUL are exactly what
      is passed over. */
  lemma NextPassesOneString(m: string, argz: nat, len: nat, p: nat)
    requires IsVector(m, argz, len) && argz <= p < argz + len
    ensures Terminated(m, p)
    ensures match ArgzNext(m, At(argz), len, At(p))
            case Null => m[p..argz + len] == StringAt(m, p) + [NUL]
            case At(q) => p < q < argz + len && m[p..argz + len] == StringAt(m, p) + [NUL] + m[q..argz + len]
  {
    InsideIsTerminated(m, argz, len, p);
    var q := NulAfter(m, p);
    assert m[p..argz + len] == m[p..q] + [m[q]] + m[q + 1..argz + len];
  }

  // ---- the list of strings a vector encodes ----------------------------------------

  function Encode(list: seq<string>): string {
    if list == [] then [] else list[0] + [NUL] + Encode(list[1..])
  }

  predicate NulFree(list: seq<string>) {
    forall s | s in list :: NUL !in s
  }

  lemma SplitAtFirstNul(s: string, x: string, t: string, y: string)
    requires NUL !in s && NUL !in t && s + [NUL] + x == t + [NUL] + y
    ensures s == t && x == y
  {
    var u := s + [NUL] + x;
    assert u[|s|] == NUL && u[|t|] == NUL;
    assert s == u[..|s|] == t;
    assert x == u[|s| + 1..] == y;
  }

  /** Different lists of strings have different vectors. */
  lemma {:induction false} EncodeInjective(a: seq<string>, b: seq<string>)
    requires NulFree(a) && NulFree(b) && Encode(a) == Encode(b)
    ensures a == b
    decreases |a|
  {
    if a != [] && b != [] {
      assert NUL !in a[0] && NUL !in b[0];
      SplitAtFirstNul(a[0], Encode(a[1..]), b[0], Encode(b[1..]));
      EncodeInjective(a[1..], b[1..]);
    }
  }

  // ---- the two documented loops -----------------------------------------------------

  /** A vector in memory, or a null pointer of length zero. */
  predicate IsArgz(m: string, argz: Pointer, len: nat) {
    if argz.Null? then len == 0 else IsVector(m, argz.addr, len)
  }

  /** A pointer an iteration over the vector can hold. */
  predicate IsEntry(argz: Pointer, len: nat, entry: Pointer) {
    entry.At? ==> argz.At? && (argz.addr <= entry.addr < argz.addr + len || (len == 0 && entry == argz))
  }

  lemma NextIsEntry(m: string, argz: Pointer, len: nat, entry: Pointer)
    requires IsArgz(m, argz, len) && IsEntry(argz, len, entry)
    ensures ArgzNext.requires(m, argz, len, entry)
    ensures IsEntry(argz, len, ArgzNext(m, argz, len, entry))
    ensures entry.At? && ArgzNext(m, argz, len, entry).At? ==> entry.addr < ArgzNext(m, argz, len, entry).addr
  {
    if entry.At? && len > 0 {
      NextPassesOneString(m, argz.addr, len, entry.addr);
    }
  }

  /** The entries an iteration visits from this one on. */
  function Entries(m: string, argz: Pointer, len: nat, entry: Pointer): seq<nat>
    requires IsArgz(m, argz, len) && IsEntry(argz, len, entry)
    decreases if entry.At? then 1 + argz.addr + len - entry.addr else 0
  {
    if entry.Null? then []
    else
      NextIsEntry(m, argz, len, entry);
      [entry.addr] + Entries(m, argz, len, ArgzNext(m, argz, len, entry))
  }

  /** while ((entry = argz_next (argz, argz_len, entry))) */
  method WhileLoop(m: string, argz: Pointer, len: nat) returns (visited: seq<nat>)
    requires IsArgz(m, argz, len)
    ensures visited == Entries(m, argz, len, ArgzNext(m, argz, len, Null))
  {
    visited := [];
    var entry := ArgzNext(m, argz, len, Null);
    ghost var first := entry;
    while entry.At?
      invariant IsEntry(argz, len, entry) && IsEntry(argz, len, first)
      invariant visited + Entries(m, argz, len, entry) == Entries(m, argz, len, first)
      decreases if entry.At? then 1 + argz.addr + len - entry.addr else 0
    {
      visited := visited + [entry.addr];
      NextIsEntry(m, argz, len, entry);
      entry := ArgzNext(m, argz, len, entry);
    }
  }

  /** for (entry = argz; entry; entry = argz_next (argz, argz_len, entry)) */
  method ForLoop(m: string, argz: Pointer, len: nat) returns (visited: seq<nat>)
    requires IsArgz(m, argz, len)
    ensures visited == Entries(m, argz, len, argz)
  {
    visited := [];
    var entry := argz;
    while entry.At?
      invariant IsEntry(argz, len, entry)
      invariant visited + Entries(m, argz, len, entry) == Entries(m, argz, len, argz)
      decreases if entry.At? then 1 + argz.addr + len - entry.addr else 0
    {
      visited := visited + [entry.addr];
      NextIsEntry(m, argz, len, entry);
      entry := ArgzNext(m, argz, len, entry);
    }
  }

  predicate AllTerminated(m: string, starts: seq<nat>) {
    forall p | p in starts :: Terminated(m, p)
  }

  /** The strings at these addresses. */
  function Texts(m: string, starts: seq<nat>): (list: seq<string>)
    requires AllTerminated(m, starts)
    ensures NulFree(list)
  {
    if starts == [] then [] else [StringAt(m, starts[0])] + Texts(m, starts[1..])
  }

  /** The strings visited from any pointer into the vector rebuild, each with
      its NUL, the rest of the vector. */
  lemma {:induction false} VisitedRebuildsRest(m: string, argz: nat, len: nat, p: nat)
    requires IsVector(m, argz, len) && argz <= p < argz + len
    ensures AllTerminated(m, Entries(m, At(argz), len, At(p)))
    ensures Encode(Texts(m, Entries(m, At(argz), len, At(p)))) == m[p..argz + len]
    decreases argz + len - p
  {
    NextPassesOneString(m, argz, len, p);
    NextIsEntry(m, At(argz), len, At(p));
    var starts := Entries(m, At(argz), len, At(p));
    match ArgzNext(m, At(argz), len, At(p))
    case Null =>
      assert Entries(m, At(argz), len, Null) == [];
      assert starts == [p] && starts[1..] == [];
    case At(q) =>
      VisitedRebuildsRest(m, argz, len, q);
      assert starts[1..] == Entries(m, At(argz), len, At(q));
  }

  /** The loop that starts from NULL visits exactly the strings the vector
      encodes, in order, for every list of NUL-free strings. */
  lemma WhileLoopVisitsList(m: string, argz: Pointer, len: nat, list: seq<string>)
    requires IsArgz(m, argz, len) && NulFree(list)
    requires Encode(list) == if argz.At? then m[argz.addr..argz.addr + len] else ""
    ensures var visited := Entries(m, argz, len, ArgzNext(m, argz, len, Null));
            AllTerminated(m, visited) && Texts(m, visited) == list
  {
    if len > 0 {
      VisitedRebuildsRest(m, argz.addr, len, argz.addr);
      EncodeInjective(Texts(m, Entries(m, argz, len, argz)), list);
    }
  }

  /** The second loop visits the same entries exactly if the vector is not
      empty or its pointer is null: on an empty vector at a non-null address it
      visits that address, where there is no entry. */
  lemma LoopsAgreeExactly(m: string, argz: Pointer, len: nat)
    requires IsArgz(m, argz, len)
    ensures Entries(m, argz, len, argz) == Entries(m, argz, len, ArgzNext(m, argz, len, Null))
            <==> len > 0 || argz.Null?
  {
    if len == 0 && argz.At? {
      assert Entries(m, argz, len, argz)[0] == argz.addr;
    }
  }
}
