/** The abstract state of one SizeClass and what each of its operations does to it. */
module SizeClassSpec {
  import opened Arithmetic
  import opened Lists
  import opened Layout

  /** slabs_ and current_, and for each slab its free list, head first. */
  datatype ClassState = ClassState(slabs: seq<Addr>, current: Addr, free: map<Addr, seq<Addr>>)

  /** The block handed out and its slab, both null when there was none. */
  datatype Taken = Taken(state: ClassState, block: Addr, slab: Addr)

  datatype Option<T> = None | Some(value: T)

  function FreeOf(c: ClassState, p: Addr): seq<Addr>
  {
    if p in c.free then c.free[p] else []
  }

  predicate Empty(free: map<Addr, seq<Addr>>, size: nat, p: Addr)
  {
    p in free && |free[p]| == Capacity(size)
  }

  ghost function FreeSet(c: ClassState): set<Addr>
  {
    set p, b | p in c.slabs && b in FreeOf(c, p) :: b
  }

  /** What every operation keeps. */
  ghost predicate Ok(c: ClassState, size: nat)
  {
    && Capacity(size) > 0
    && NoDup(c.slabs)
    && c.free.Keys == Elems(c.slabs)
    && (c.current == NULL || c.current in c.slabs)
    && (forall p {:trigger SlabOk(p, size, FreeOf(c, p))} | p in c.slabs :: SlabOk(p, size, FreeOf(c, p)))
    && (forall p, q {:trigger Apart(p, q)} | p in c.slabs && q in c.slabs && p != q :: Apart(p, q))
  }

  ghost predicate SlabOk(p: Addr, size: nat, list: seq<Addr>)
  {
    IsBase(p) && NoDup(list) && forall b | b in list :: IsBlock(p, size, b)
  }

  /** What holds between operations: at most one retained empty slab. */
  ghost predicate AtMostOneEmpty(c: ClassState, size: nat)
  {
    forall p, q {:trigger Empty(c.free, size, p), Empty(c.free, size, q)}
      | p in c.slabs && q in c.slabs && Empty(c.free, size, p) && Empty(c.free, size, q) :: p == q
  }

  // ---- allocation ----

  /** The first slab in order that has a free block. */
  function FirstFree(c: ClassState, slabs: seq<Addr>): (p: Addr)
    ensures p != NULL ==> p in slabs && FreeOf(c, p) != []
    ensures p == NULL && NULL !in slabs ==> forall q | q in slabs :: FreeOf(c, q) == []
  {
    if slabs == [] then NULL
    else if FreeOf(c, slabs[0]) != [] then slabs[0]
    else FirstFree(c, slabs[1..])
  }

  /** Slab::allocate_block on a slab that has a free block. */
  function Pop(c: ClassState, p: Addr): Taken
    requires FreeOf(c, p) != []
  {
    Taken(c.(free := c.free[p := c.free[p][1..]]), c.free[p][0], p)
  }

  function AllocateExisting(c: ClassState): Taken
  {
    if c.current != NULL && FreeOf(c, c.current) != [] then Pop(c, c.current)
    else
      var p := FirstFree(c, c.slabs);
      if p == NULL then Taken(c, NULL, NULL) else Pop(c.(current := p), p)
  }

  /** The class after Slab::create at `p`, before the first block of the new slab is taken. */
  ghost function AddSlab(c: ClassState, size: nat, p: Addr): ClassState
  {
    ClassState(c.slabs + [p], p, c.free[p := InitList(p, size, Capacity(size))])
  }

  /** SizeClass::allocate and ::allocate_new_slab; `os` is the base of a new mapping or the OS's refusal. */
  ghost function Allocate(c: ClassState, size: nat, os: Option<Addr>): Taken
    requires Capacity(size) > 0
  {
    var r := AllocateExisting(c);
    if r.block != NULL || os.None? then r
    else
      InitListProperties(os.value, size, Capacity(size));
      Pop(AddSlab(c, size, os.value), os.value)
  }

  /** The OS returns regions that overlap no slab of the class. */
  ghost predicate FreshBase(c: ClassState, os: Option<Addr>)
  {
    os.Some? ==> IsBase(os.value) && forall p | p in c.slabs :: Apart(p, os.value)
  }

  ghost predicate Exhausted(c: ClassState)
  {
    forall p | p in c.slabs :: FreeOf(c, p) == []
  }

  lemma NotNull(c: ClassState, size: nat)
    requires Ok(c, size)
    ensures NULL !in c.slabs
    ensures forall p, b | p in c.slabs && b in FreeOf(c, p) :: b != NULL
  {
    forall p, b | p in c.slabs && b in FreeOf(c, p) ensures b != NULL {
      assert SlabOk(p, size, FreeOf(c, p));
      BlockBounds(p, size, b);
    }
    assert NULL in c.slabs ==> SlabOk(NULL, size, FreeOf(c, NULL));
  }

  /** A free block is on the free list of the slab it lies in, and on no other. */
  lemma FreeBlockOwner(c: ClassState, size: nat, p: Addr, b: Addr)
    requires Ok(c, size) && p in c.slabs && IsBlock(p, size, b)
    ensures b in FreeSet(c) <==> b in FreeOf(c, p)
  {
    if b in FreeSet(c) {
      var q :| q in c.slabs && b in FreeOf(c, q);
      assert SlabOk(q, size, FreeOf(c, q)) && SlabOk(p, size, FreeOf(c, p));
      if q != p { OwnerUnique(p, q, size, size, b); }
    }
  }

  /** Taking the head of a free list: the block leaves the free set, nothing else moves. */
  lemma PopProperties(c: ClassState, size: nat, p: Addr)
    requires Ok(c, size) && p in c.slabs && FreeOf(c, p) != []
    ensures var r := Pop(c, p);
      && Ok(r.state, size) && r.state.slabs == c.slabs && r.state.current == c.current
      && r.block != NULL && IsBlock(p, size, r.block)
      && r.block in FreeSet(c) && FreeSet(r.state) == FreeSet(c) - {r.block}
      && FreeOf(c, p) == [r.block] + FreeOf(r.state, p)
      && !Empty(r.state.free, size, p)
      && (forall q | q != p :: FreeOf(r.state, q) == FreeOf(c, q))
      && (forall q {:trigger Empty(r.state.free, size, q)} :: Empty(r.state.free, size, q) ==> Empty(c.free, size, q))
  {
    var r := Pop(c, p);
    NotNull(c, size);
    assert SlabOk(p, size, FreeOf(c, p));
    assert r.block in FreeOf(c, p);
    ListBound(p, size, FreeOf(c, p));
    forall q | q in r.state.slabs ensures SlabOk(q, size, FreeOf(r.state, q)) {
      assert SlabOk(q, size, FreeOf(c, q));
    }
    forall b ensures b in FreeSet(r.state) <==> b in FreeSet(c) && b != r.block {
      if b in FreeSet(c) {
        var q :| q in c.slabs && b in FreeOf(c, q);
        if b != r.block { assert b in FreeOf(r.state, q); }
      }
      if b in FreeSet(r.state) {
        var q :| q in c.slabs && b in FreeOf(r.state, q);
        assert b in FreeOf(c, q);
        if b == r.block {
          FreeBlockOwner(c, size, p, b);
          assert SlabOk(q, size, FreeOf(c, q));
          if q != p { OwnerUnique(p, q, size, size, b); }
        }
      }
    }
  }

  /** allocate_existing finds a block exactly when some slab has one; it never adds or drops a slab. */
  lemma AllocateExistingProperties(c: ClassState, size: nat)
    requires Ok(c, size)
    ensures var r := AllocateExisting(c);
      && Ok(r.state, size) && r.state.slabs == c.slabs
      && (AtMostOneEmpty(c, size) ==> AtMostOneEmpty(r.state, size))
      && (r.block == NULL <==> Exhausted(c))
      && (r.block == NULL ==> r.state == c)
      && (r.block != NULL ==>
            && r.slab in c.slabs && IsBlock(r.slab, size, r.block) && r.state.current == r.slab
            && r.block in FreeSet(c) && FreeSet(r.state) == FreeSet(c) - {r.block})
  {
    var r := AllocateExisting(c);
    NotNull(c, size);
    var p := if c.current != NULL && FreeOf(c, c.current) != [] then c.current else FirstFree(c, c.slabs);
    if p != NULL {
      var c1 := c.(current := p);
      assert forall q :: FreeOf(c1, q) == FreeOf(c, q);
      assert Ok(c1, size) && FreeSet(c1) == FreeSet(c);
      PopProperties(c1, size, p);
      assert r == Pop(c1, p);
    }
  }

  /** Which block it finds: the head of current_'s list while that has one, else the head of the earliest
      slab's that does. */
  lemma AllocateExistingChoice(c: ClassState, size: nat)
    requires Ok(c, size) && !Exhausted(c)
    ensures var r := AllocateExisting(c);
      && r.slab in c.slabs && FreeOf(c, r.slab) != [] && r.block == FreeOf(c, r.slab)[0]
      && FreeOf(r.state, r.slab) == FreeOf(c, r.slab)[1..]
      && (c.current != NULL && FreeOf(c, c.current) != [] ==> r.slab == c.current)
      && (c.current == NULL || FreeOf(c, c.current) == [] ==> IsEarliest(c, c.slabs, r.slab))
  {
    NotNull(c, size);
    FirstFreeIsEarliest(c, c.slabs);
  }

  /** p is in the list and every slab before it is full. */
  ghost predicate IsEarliest(c: ClassState, slabs: seq<Addr>, p: Addr)
  {
    exists i :: 0 <= i < |slabs| && slabs[i] == p && forall j | 0 <= j < i :: FreeOf(c, slabs[j]) == []
  }

  lemma {:induction false} FirstFreeIsEarliest(c: ClassState, slabs: seq<Addr>)
    requires NULL !in slabs
    ensures FirstFree(c, slabs) != NULL ==> IsEarliest(c, slabs, FirstFree(c, slabs))
  {
    if slabs != [] {
      if FreeOf(c, slabs[0]) != [] {
        assert slabs[0] == FirstFree(c, slabs);
      } else {
        FirstFreeIsEarliest(c, slabs[1..]);
        if FirstFree(c, slabs) != NULL {
          var i :| 0 <= i < |slabs[1..]| && slabs[1..][i] == FirstFree(c, slabs) && forall j | 0 <= j < i :: FreeOf(c, slabs[1..][j]) == [];
          assert slabs[i + 1] == FirstFree(c, slabs);
          assert forall j | 0 < j < i + 1 :: slabs[j] == slabs[1..][j - 1];
        }
      }
    }
  }

  lemma AddSlabProperties(c: ClassState, size: nat, p: Addr)
    requires Ok(c, size) && FreshBase(c, Some(p))
    ensures var d := AddSlab(c, size, p);
      && Ok(d, size) && p !in c.slabs
      && FreeOf(d, p) == InitList(p, size, Capacity(size)) && FreeOf(d, p) != []
      && (forall b :: b in FreeSet(d) <==> b in FreeSet(c) || IsBlock(p, size, b))
      && forall q | q != p :: FreeOf(d, q) == FreeOf(c, q)
  {
    var d := AddSlab(c, size, p);
    InitListProperties(p, size, Capacity(size));
    forall q | q in c.slabs ensures q != p && SlabOk(q, size, FreeOf(d, q)) {
      assert SlabOk(q, size, FreeOf(c, q));
    }
    assert SlabOk(p, size, FreeOf(d, p));
    forall b ensures b in FreeSet(d) <==> b in FreeSet(c) || IsBlock(p, size, b) {
      if b in FreeSet(c) {
        var q :| q in c.slabs && b in FreeOf(c, q);
        assert q in d.slabs && b in FreeOf(d, q);
      }
      if IsBlock(p, size, b) { assert p in d.slabs && b in FreeOf(d, p); }
      if b in FreeSet(d) {
        var q :| q in d.slabs && b in FreeOf(d, q);
        if q != p { assert q in c.slabs && b in FreeOf(c, q); }
      }
    }
  }

  /** allocate never returns null while the OS answers, maps a slab only when every slab is full, and keeps
      the class invariant. The block it hands out was free, or is one of the new slab's blocks. */
  lemma AllocateProperties(c: ClassState, size: nat, os: Option<Addr>)
    requires Ok(c, size) && FreshBase(c, os)
    ensures var r := Allocate(c, size, os);
      && Ok(r.state, size)
      && (AtMostOneEmpty(c, size) ==> AtMostOneEmpty(r.state, size))
      && (r.block == NULL <==> Exhausted(c) && os.None?)
      && (r.block == NULL ==> r.state == c)
      && (r.state.slabs == if Exhausted(c) && os.Some? then c.slabs + [os.value] else c.slabs)
      && (r.block != NULL ==>
            && r.slab in r.state.slabs && IsBlock(r.slab, size, r.block)
            && r.block !in FreeSet(r.state)
            && r.state.current == r.slab
            && (forall b :: b in FreeSet(r.state) || b == r.block <==>
                  b in FreeSet(c) || (Exhausted(c) && os.Some? && IsBlock(os.value, size, b)))
            && (Exhausted(c) ==> r.slab == os.value && FreeSet(c) == {}))
  {
    AllocateExistingProperties(c, size);
    if Exhausted(c) && os.Some? { GrowProperties(c, size, os.value); }
  }

  /** With every slab full the new slab's first block is taken, and the rest of it is all that is free. */
  lemma GrowProperties(c: ClassState, size: nat, p: Addr)
    requires Ok(c, size) && FreshBase(c, Some(p)) && Exhausted(c)
    ensures var r := Allocate(c, size, Some(p));
      && Ok(r.state, size) && r.block != NULL && r.slab == p && r.state.current == p && r.state.slabs == c.slabs + [p]
      && IsBlock(p, size, r.block) && r.block !in FreeSet(r.state) && FreeSet(c) == {}
      && (forall b :: b in FreeSet(r.state) || b == r.block <==> IsBlock(p, size, b))
      && AtMostOneEmpty(r.state, size)
  {
    AllocateExistingProperties(c, size);
    AddSlabProperties(c, size, p);
    PopProperties(AddSlab(c, size, p), size, p);
    var r := Allocate(c, size, Some(p));
    assert forall q | q in c.slabs :: FreeOf(r.state, q) == [] && q in r.state.free;
  }

  // ---- freeing ----

  /** Slab::free_block. */
  function Push(c: ClassState, p: Addr, b: Addr): ClassState
    requires p in c.free
  {
    c.(free := c.free[p := [b] + c.free[p]])
  }

  /** A block some caller holds: it belongs to slab p of the class and is not on its free list. */
  ghost predicate Outstanding(c: ClassState, size: nat, p: Addr, b: Addr)
  {
    p in c.slabs && IsBlock(p, size, b) && b !in FreeOf(c, p)
  }

  lemma PushProperties(c: ClassState, size: nat, p: Addr, b: Addr)
    requires Ok(c, size) && Outstanding(c, size, p, b)
    ensures p in c.free
    ensures var d := Push(c, p, b);
      && Ok(d, size) && d.slabs == c.slabs && d.current == c.current
      && FreeSet(d) == FreeSet(c) + {b}
      && FreeOf(d, p) == [b] + FreeOf(c, p)
      && (forall q | q != p :: FreeOf(d, q) == FreeOf(c, q))
      && !Empty(c.free, size, p)
  {
    var d := Push(c, p, b);
    assert SlabOk(p, size, FreeOf(c, p));
    NoDupPush(b, FreeOf(c, p));
    assert SlabOk(p, size, [b] + FreeOf(c, p));
    forall q | q in d.slabs ensures SlabOk(q, size, FreeOf(d, q)) {
      assert SlabOk(q, size, FreeOf(c, q));
    }
    PushFreeSet(c, p, b);
    if Empty(c.free, size, p) { FullListHasAll(p, size, FreeOf(c, p), b); }
  }

  lemma PushFreeSet(c: ClassState, p: Addr, b: Addr)
    requires p in c.slabs && p in c.free
    ensures FreeSet(Push(c, p, b)) == FreeSet(c) + {b}
  {
    var d := Push(c, p, b);
    forall x ensures x in FreeSet(d) <==> x in FreeSet(c) || x == b {
      if x in FreeSet(c) {
        var q :| q in c.slabs && x in FreeOf(c, q);
        assert x in FreeOf(d, q);
      }
      if x in FreeSet(d) {
        var q :| q in d.slabs && x in FreeOf(d, q);
        assert x == b || x in FreeOf(c, q);
      }
      if x == b { assert p in d.slabs && b in FreeOf(d, p); }
    }
  }

  // ---- releasing extra empty slabs ----

  /** std::swap(slabs_[i], slabs_.back()); slabs_.pop_back(). */
  function SwapPop(slabs: seq<Addr>, i: nat): seq<Addr>
    requires i < |slabs|
  {
    slabs[i := slabs[|slabs| - 1]][..|slabs| - 1]
  }

  /** The release loop from index i, knowing whether an empty slab has been retained already. */
  function ReleaseFrom(slabs: seq<Addr>, free: map<Addr, seq<Addr>>, size: nat, i: nat, kept: bool): seq<Addr>
    decreases |slabs| - i
  {
    if i >= |slabs| then slabs
    else if !Empty(free, size, slabs[i]) then ReleaseFrom(slabs, free, size, i + 1, kept)
    else if !kept then ReleaseFrom(slabs, free, size, i + 1, true)
    else ReleaseFrom(SwapPop(slabs, i), free, size, i, true)
  }

  function FirstEmpty(slabs: seq<Addr>, free: map<Addr, seq<Addr>>, size: nat, i: nat): (f: nat)
    requires i <= |slabs|
    ensures i <= f <= |slabs|
    ensures forall j | i <= j < f :: !Empty(free, size, slabs[j])
    ensures f < |slabs| ==> Empty(free, size, slabs[f])
    decreases |slabs| - i
  {
    if i == |slabs| || Empty(free, size, slabs[i]) then i else FirstEmpty(slabs, free, size, i + 1)
  }

  /** The first n entries agree. */
  ghost predicate SamePrefix(s: seq<Addr>, t: seq<Addr>, n: nat)
  {
    n <= |s| && n <= |t| && forall j | 0 <= j < n :: s[j] == t[j]
  }

  function Compact(slabs: seq<Addr>, free: map<Addr, seq<Addr>>, size: nat): seq<Addr>
  {
    ReleaseFrom(slabs, free, size, 0, false)
  }

  function Restrict(free: map<Addr, seq<Addr>>, slabs: seq<Addr>): map<Addr, seq<Addr>>
  {
    map p | p in slabs && p in free :: free[p]
  }

  /** The empty slab that release keeps. */
  function Retained(c: ClassState, size: nat): Addr
  {
    var f := FirstEmpty(c.slabs, c.free, size, 0);
    if f < |c.slabs| then c.slabs[f] else NULL
  }

  /** SizeClass::release_extra_empty_slabs_locked. */
  function Release(c: ClassState, size: nat): ClassState
  {
    var slabs := Compact(c.slabs, c.free, size);
    var current := if c.current in slabs then c.current else NULL;
    ClassState(
      slabs,
      if (current == NULL || FreeOf(c, current) == []) && Retained(c, size) != NULL then Retained(c, size) else current,
      Restrict(c.free, slabs))
  }

  lemma SwapPopProperties(slabs: seq<Addr>, i: nat)
    requires NoDup(slabs) && i < |slabs|
    ensures var s := SwapPop(slabs, i);
      && NoDup(s) && s[..i] == slabs[..i] && |s| == |slabs| - 1
      && (forall j | 0 <= j < |s| :: s[j] == if j == i then slabs[|slabs| - 1] else slabs[j])
      && forall p :: p in s <==> p in slabs && p != slabs[i]
  {
    var s := SwapPop(slabs, i);
    var last := |slabs| - 1;
    forall p ensures p in s <==> p in slabs && p != slabs[i] {
      if p in slabs && p != slabs[i] {
        var j :| 0 <= j < |slabs| && slabs[j] == p;
        assert s[if j == last then i else j] == p;
      }
    }
  }

  /** With an empty slab retained, the loop drops every later empty slab and nothing else. */
  lemma {:induction false} ReleaseKeepsNonEmpty(slabs: seq<Addr>, free: map<Addr, seq<Addr>>, size: nat, i: nat)
    requires NoDup(slabs) && i <= |slabs|
    ensures var r := ReleaseFrom(slabs, free, size, i, true);
      && NoDup(r) && i <= |r| && r[..i] == slabs[..i]
      && forall p :: p in r <==> p in slabs && (p in slabs[..i] || !Empty(free, size, p))
    decreases |slabs| - i
  {
    if i < |slabs| {
      if Empty(free, size, slabs[i]) {
        SwapPopProperties(slabs, i);
        ReleaseKeepsNonEmpty(SwapPop(slabs, i), free, size, i);
      } else {
        ReleaseKeepsNonEmpty(slabs, free, size, i + 1);
        var r := ReleaseFrom(slabs, free, size, i, true);
        assert r[..i] == r[..i + 1][..i] == slabs[..i];
        assert slabs[..i + 1] == slabs[..i] + [slabs[i]];
      }
    }
  }

  lemma {:induction false} ReleaseSkipsToFirstEmpty(slabs: seq<Addr>, free: map<Addr, seq<Addr>>, size: nat, i: nat)
    requires i <= |slabs|
    ensures var f := FirstEmpty(slabs, free, size, i);
      ReleaseFrom(slabs, free, size, i, false) ==
        if f < |slabs| then ReleaseFrom(slabs, free, size, f + 1, true) else slabs
    decreases |slabs| - i
  {
    if i < |slabs| && !Empty(free, size, slabs[i]) { ReleaseSkipsToFirstEmpty(slabs, free, size, i + 1); }
  }

  /** What release keeps: every non-empty slab and the empty one earliest in the order; everything up to
      that one stays in place. */
  lemma CompactKeeps(slabs: seq<Addr>, free: map<Addr, seq<Addr>>, size: nat)
    requires NoDup(slabs)
    ensures var f := FirstEmpty(slabs, free, size, 0);
      var r := Compact(slabs, free, size);
      && NoDup(r)
      && (f < |slabs| ==> SamePrefix(r, slabs, f + 1))
      && (f == |slabs| ==> r == slabs)
      && forall p :: p in r <==> p in slabs && (!Empty(free, size, p) || (f < |slabs| && p == slabs[f]))
  {
    var f := FirstEmpty(slabs, free, size, 0);
    ReleaseSkipsToFirstEmpty(slabs, free, size, 0);
    if f < |slabs| {
      ReleaseKeepsNonEmpty(slabs, free, size, f + 1);
      var r := Compact(slabs, free, size);
      assert slabs[..f + 1] == slabs[..f] + [slabs[f]];
      forall j | 0 <= j < f + 1 ensures r[j] == slabs[j] {
        assert r[..f + 1][j] == slabs[..f + 1][j];
      }
    }
  }

  /** Release keeps the invariant, leaves at most one empty slab, and leaves the surviving free lists untouched.
      `current_` stays where it is while its slab survives and has a free block; otherwise it moves to the
      retained slab if there is one; with nothing retained it stays while its slab survives and is null after. */
  lemma ReleaseProperties(c: ClassState, size: nat)
    requires Ok(c, size)
    ensures var d := Release(c, size);
      && Ok(d, size) && AtMostOneEmpty(d, size)
      && (forall p :: p in d.slabs <==> p in c.slabs && (!Empty(c.free, size, p) || p == Retained(c, size)))
      && (forall p | p in d.slabs :: FreeOf(d, p) == FreeOf(c, p))
      && (Retained(c, size) != NULL ==> d.current != NULL && FreeOf(d, d.current) != [])
      && (c.current in d.slabs && FreeOf(c, c.current) != [] ==> d.current == c.current)
      && (!(c.current in d.slabs && FreeOf(c, c.current) != []) && Retained(c, size) != NULL ==> d.current == Retained(c, size))
      && (Retained(c, size) == NULL ==> d.current == if c.current in d.slabs then c.current else NULL)
  {
    var d := Release(c, size);
    NotNull(c, size);
    CompactKeeps(c.slabs, c.free, size);
    assert forall p | p in d.slabs :: FreeOf(d, p) == FreeOf(c, p);
    forall p | p in d.slabs ensures SlabOk(p, size, FreeOf(d, p)) {
      assert SlabOk(p, size, FreeOf(c, p));
    }
  }

  /** SizeClass::deallocate of a block of slab p. */
  function Deallocate(c: ClassState, size: nat, p: Addr, b: Addr): ClassState
    requires p in c.free
  {
    var d := Push(c, p, b);
    if Empty(d.free, size, p) then Release(d, size) else d
  }

  function Owner(own: map<Addr, Addr>, b: Addr): Addr
  {
    if b in own then own[b] else NULL
  }

  function PushAll(c: ClassState, own: map<Addr, Addr>, blocks: seq<Addr>): (d: ClassState)
    requires forall b | b in blocks :: Owner(own, b) in c.free
    ensures d.free.Keys == c.free.Keys
    decreases |blocks|
  {
    if blocks == [] then c
    else PushAll(Push(c, Owner(own, blocks[0]), blocks[0]), own, blocks[1..])
  }

  /** Whether some slab was empty right after one of the pushes. */
  function SawEmpty(c: ClassState, size: nat, own: map<Addr, Addr>, blocks: seq<Addr>): bool
    requires forall b | b in blocks :: Owner(own, b) in c.free
    decreases |blocks|
  {
    blocks != [] &&
    var d := Push(c, Owner(own, blocks[0]), blocks[0]);
    Empty(d.free, size, Owner(own, blocks[0])) || SawEmpty(d, size, own, blocks[1..])
  }

  /** SizeClass::deallocate_batch: all pushes first, then at most one release pass. */
  function FreeBatch(c: ClassState, size: nat, own: map<Addr, Addr>, blocks: seq<Addr>): ClassState
    requires forall b | b in blocks :: Owner(own, b) in c.free
  {
    var d := PushAll(c, own, blocks);
    if SawEmpty(c, size, own, blocks) then Release(d, size) else d
  }

  /** Calling deallocate on the same blocks in order; None when a block's slab is already unmapped. */
  function FreeEach(c: ClassState, size: nat, own: map<Addr, Addr>, blocks: seq<Addr>): Option<ClassState>
    decreases |blocks|
  {
    if blocks == [] then Some(c)
    else if Owner(own, blocks[0]) !in c.free then None
    else FreeEach(Deallocate(c, size, Owner(own, blocks[0]), blocks[0]), size, own, blocks[1..])
  }

  /** The index of the first block whose raw_ptr is null. */
  function FirstOrphan(own: map<Addr, Addr>, blocks: seq<Addr>): (n: nat)
    ensures n <= |blocks|
    ensures forall i | 0 <= i < n :: Owner(own, blocks[i]) != NULL
    ensures n < |blocks| ==> Owner(own, blocks[n]) == NULL
  {
    if blocks == [] || Owner(own, blocks[0]) == NULL then 0 else 1 + FirstOrphan(own, blocks[1..])
  }

  /** A batch of outstanding blocks has no orphan. */
  lemma NoOrphans(c: ClassState, size: nat, own: map<Addr, Addr>, blocks: seq<Addr>)
    requires Ok(c, size) && BatchOk(c, size, own, blocks)
    ensures FirstOrphan(own, blocks) == |blocks| && blocks[..FirstOrphan(own, blocks)] == blocks
  {
    NotNull(c, size);
    forall i | 0 <= i < |blocks| ensures Owner(own, blocks[i]) != NULL {
      assert Outstanding(c, size, Owner(own, blocks[i]), blocks[i]);
    }
  }

  ghost predicate BatchOk(c: ClassState, size: nat, own: map<Addr, Addr>, blocks: seq<Addr>)
  {
    NoDup(blocks) && forall b | b in blocks :: Outstanding(c, size, Owner(own, b), b)
  }

  /** After pushing the head, the rest of the batch is still outstanding. */
  lemma BatchTail(c: ClassState, size: nat, own: map<Addr, Addr>, blocks: seq<Addr>)
    requires Ok(c, size) && BatchOk(c, size, own, blocks) && blocks != []
    ensures Owner(own, blocks[0]) in c.free
    ensures BatchOk(Push(c, Owner(own, blocks[0]), blocks[0]), size, own, blocks[1..])
  {
    assert Outstanding(c, size, Owner(own, blocks[0]), blocks[0]);
    PushProperties(c, size, Owner(own, blocks[0]), blocks[0]);
    var d := Push(c, Owner(own, blocks[0]), blocks[0]);
    forall b | b in blocks[1..] ensures Outstanding(d, size, Owner(own, b), b) {
      assert Outstanding(c, size, Owner(own, b), b);
    }
  }

  /** The state after k sequential frees, seen from the same pushes without any release. */
  ghost predicate Tracks(p: ClassState, e: ClassState, size: nat, saw: bool)
  {
    var f := FirstEmpty(p.slabs, p.free, size, 0);
    if !saw then e == p
    else
      && f < |p.slabs|
      && NoDup(e.slabs)
      && SamePrefix(e.slabs, p.slabs, f + 1)
      && (forall x :: x in e.slabs <==> x in p.slabs && (!Empty(p.free, size, x) || x == p.slabs[f]))
      && e.free == Restrict(p.free, e.slabs)
  }

  lemma {:induction false} FirstEmptyAt(slabs: seq<Addr>, free: map<Addr, seq<Addr>>, size: nat, i: nat, f: nat)
    requires i <= f < |slabs| && Empty(free, size, slabs[f])
    requires forall j | i <= j < f :: !Empty(free, size, slabs[j])
    ensures FirstEmpty(slabs, free, size, i) == f
    decreases f - i
  {
    if i < f { FirstEmptyAt(slabs, free, size, i + 1, f); }
  }

  /** Up to and including the first empty slab, the sequential run still sees the original order. */
  lemma SameFirstEmpty(p: ClassState, e: ClassState, size: nat, q: Addr, b: Addr)
    requires p.free.Keys == Elems(p.slabs) && Tracks(p, e, size, true)
    requires q in p.slabs && q in e.free
    requires !Empty(p.free, size, q) && Empty(Push(e, q, b).free, size, q)
    ensures var p', e' := Push(p, q, b), Push(e, q, b);
      var f' := FirstEmpty(p.slabs, p'.free, size, 0);
      && FirstEmpty(e.slabs, e'.free, size, 0) == f' && f' <= FirstEmpty(p.slabs, p.free, size, 0)
      && SamePrefix(e.slabs, p.slabs, f' + 1)
  {
    var p', e' := Push(p, q, b), Push(e, q, b);
    var f := FirstEmpty(p.slabs, p.free, size, 0);
    var f' := FirstEmpty(p.slabs, p'.free, size, 0);
    assert Empty(p'.free, size, p.slabs[f]);
    forall j | 0 <= j <= f' ensures Empty(e'.free, size, e.slabs[j]) == Empty(p'.free, size, p.slabs[j]) {
      TrackedMember(p, e, size, true, e.slabs[j]);
      TrackedMember(p, e, size, true, q);
    }
    FirstEmptyAt(e.slabs, e'.free, size, 0, f');
  }

  lemma TrackedMember(p: ClassState, e: ClassState, size: nat, saw: bool, x: Addr)
    requires p.free.Keys == Elems(p.slabs) && Tracks(p, e, size, saw)
    ensures x in e.slabs ==> x in p.slabs && x in e.free && x in p.free && e.free[x] == p.free[x]
    ensures x in p.slabs && x !in e.slabs ==> saw && Empty(p.free, size, x)
  {
  }

  /** Whether x survives the release does not depend on which of the two runs releases. */
  lemma SurvivesInBoth(p: ClassState, e: ClassState, size: nat, q: Addr, b: Addr, keeper: Addr, x: Addr)
    requires p.free.Keys == Elems(p.slabs) && Tracks(p, e, size, true)
    requires q in e.slabs && !Empty(p.free, size, q) && keeper in e.slabs
    ensures q in p.free && q in e.free
    ensures (x in e.slabs && (!Empty(Push(e, q, b).free, size, x) || x == keeper))
       <==> (x in p.slabs && (!Empty(Push(p, q, b).free, size, x) || x == keeper))
  {
    TrackedMember(p, e, size, true, q);
    TrackedMember(p, e, size, true, keeper);
    TrackedMember(p, e, size, true, x);
  }

  /** Retaining during the run and retaining once at the end choose the same slab. */
  lemma TracksRelease(p: ClassState, e: ClassState, size: nat, q: Addr, b: Addr, saw: bool)
    requires NoDup(p.slabs) && p.free.Keys == Elems(p.slabs) && Tracks(p, e, size, saw)
    requires q in p.slabs && q in e.slabs && q in e.free
    requires !Empty(p.free, size, q) && Empty(Push(e, q, b).free, size, q)
    ensures Tracks(Push(p, q, b), Release(Push(e, q, b), size), size, true)
  {
    if saw { TracksLaterRelease(p, e, size, q, b); } else { TracksFirstRelease(p, size, q, b); }
  }

  lemma TracksFirstRelease(p: ClassState, size: nat, q: Addr, b: Addr)
    requires NoDup(p.slabs) && p.free.Keys == Elems(p.slabs) && q in p.slabs && q in p.free
    requires Empty(Push(p, q, b).free, size, q)
    ensures Tracks(Push(p, q, b), Release(Push(p, q, b), size), size, true)
  {
    CompactKeeps(p.slabs, Push(p, q, b).free, size);
    var iq :| 0 <= iq < |p.slabs| && p.slabs[iq] == q;
  }

  lemma TracksLaterRelease(p: ClassState, e: ClassState, size: nat, q: Addr, b: Addr)
    requires NoDup(p.slabs) && p.free.Keys == Elems(p.slabs) && Tracks(p, e, size, true)
    requires q in p.slabs && q in e.slabs && q in e.free
    requires !Empty(p.free, size, q) && Empty(Push(e, q, b).free, size, q)
    ensures Tracks(Push(p, q, b), Release(Push(e, q, b), size), size, true)
  {
    var p', e' := Push(p, q, b), Push(e, q, b);
    CompactKeeps(e.slabs, e'.free, size);
    SameFirstEmpty(p, e, size, q, b);
    var d := Release(e', size);
    TracksFree(p, e, size, q, b, true, d.slabs);
    var keeper := p.slabs[FirstEmpty(p.slabs, p'.free, size, 0)];
    forall x ensures x in d.slabs <==> x in p.slabs && (!Empty(p'.free, size, x) || x == keeper) {
      SurvivesInBoth(p, e, size, q, b, keeper, x);
    }
  }

  lemma TracksFree(p: ClassState, e: ClassState, size: nat, q: Addr, b: Addr, saw: bool, slabs: seq<Addr>)
    requires p.free.Keys == Elems(p.slabs) && Tracks(p, e, size, saw) && q in e.slabs && q in e.free && q in p.free
    requires forall x | x in slabs :: x in e.slabs
    ensures Restrict(Push(e, q, b).free, slabs) == Restrict(Push(p, q, b).free, slabs)
  {
    forall x | x in slabs ensures x in e.free && x in p.free && e.free[x] == p.free[x] {
      TrackedMember(p, e, size, saw, x);
    }
    TrackedMember(p, e, size, saw, q);
  }

  lemma TracksPush(p: ClassState, e: ClassState, size: nat, q: Addr, b: Addr, saw: bool)
    requires Ok(p, size) && Tracks(p, e, size, saw) && Outstanding(p, size, q, b)
    requires q in e.free && !Empty(Push(e, q, b).free, size, q)
    ensures Tracks(Push(p, q, b), Push(e, q, b), size, saw)
  {
    PushProperties(p, size, q, b);
    var p', e' := Push(p, q, b), Push(e, q, b);
    if saw {
      var f := FirstEmpty(p.slabs, p.free, size, 0);
      assert forall x | x in p.slabs :: Empty(p'.free, size, x) <==> Empty(p.free, size, x);
      FirstEmptyAt(p'.slabs, p'.free, size, 0, f);
      assert e'.free == Restrict(p'.free, e'.slabs);
    }
  }

  lemma {:induction false} FreeEachTracks(p: ClassState, e: ClassState, size: nat, own: map<Addr, Addr>,
                                          blocks: seq<Addr>, saw: bool)
    requires Ok(p, size) && BatchOk(p, size, own, blocks) && Tracks(p, e, size, saw)
    ensures forall b | b in blocks :: Owner(own, b) in p.free
    ensures FreeEach(e, size, own, blocks).Some?
    ensures Ok(PushAll(p, own, blocks), size) && PushAll(p, own, blocks).slabs == p.slabs
    ensures Tracks(PushAll(p, own, blocks), FreeEach(e, size, own, blocks).value, size,
                   saw || SawEmpty(p, size, own, blocks))
    decreases |blocks|
  {
    assert forall b | b in blocks :: Outstanding(p, size, Owner(own, b), b);
    if blocks != [] {
      var b := blocks[0];
      var q := Owner(own, b);
      PushProperties(p, size, q, b);
      BatchTail(p, size, own, blocks);
      assert q in e.slabs && q in e.free && e.free[q] == p.free[q];
      if Empty(Push(e, q, b).free, size, q) {
        assert q in p.slabs;
        TracksRelease(p, e, size, q, b, saw);
        FreeEachTracks(Push(p, q, b), Release(Push(e, q, b), size), size, own, blocks[1..], true);
      } else {
        TracksPush(p, e, size, q, b, saw);
        FreeEachTracks(Push(p, q, b), Push(e, q, b), size, own, blocks[1..], saw);
      }
    }
  }

  /** Releasing once at the end gives the slabs and free lists the sequential run ended with. */
  lemma TracksToTheEnd(p: ClassState, e: ClassState, size: nat)
    requires Ok(p, size) && Tracks(p, e, size, true)
    ensures var d := Release(p, size);
      var f := FirstEmpty(p.slabs, p.free, size, 0);
      && Elems(d.slabs) == Elems(e.slabs) && |d.slabs| == |e.slabs| && d.free == e.free
      && f < |p.slabs| && SamePrefix(d.slabs, p.slabs, f + 1) && SamePrefix(e.slabs, p.slabs, f + 1)
      && forall x | x in d.slabs :: Empty(d.free, size, x) <==> x == p.slabs[f]
  {
    var d := Release(p, size);
    CompactKeeps(p.slabs, p.free, size);
    assert forall x :: x in d.slabs <==> x in e.slabs;
    assert Elems(d.slabs) == Elems(e.slabs);
    assert d.free == e.free;
    NoDupCard(d.slabs);
    NoDupCard(e.slabs);
  }

  /** deallocate_batch is deallocate on each block in order: no block's slab is unmapped before its turn,
      both end with the same slabs and the same free lists, and both retain the empty slab that was
      earliest in the original order. Only slabs_ order after that slab, and current_, may differ. */
  lemma BatchEqualsEach(c: ClassState, size: nat, own: map<Addr, Addr>, blocks: seq<Addr>)
    requires Ok(c, size) && BatchOk(c, size, own, blocks)
    ensures forall b | b in blocks :: Owner(own, b) in c.free
    ensures FreeEach(c, size, own, blocks).Some?
    ensures var batch := FreeBatch(c, size, own, blocks);
      var each := FreeEach(c, size, own, blocks).value;
      var f := FirstEmpty(c.slabs, PushAll(c, own, blocks).free, size, 0);
      && Elems(batch.slabs) == Elems(each.slabs) && |batch.slabs| == |each.slabs|
      && batch.free == each.free
      && (SawEmpty(c, size, own, blocks) ==>
            && f < |c.slabs|
            && SamePrefix(batch.slabs, c.slabs, f + 1) && SamePrefix(each.slabs, c.slabs, f + 1)
            && forall p | p in batch.slabs :: Empty(batch.free, size, p) <==> p == c.slabs[f])
      && (!SawEmpty(c, size, own, blocks) ==> batch == each && batch.slabs == c.slabs)
  {
    FreeEachTracks(c, c, size, own, blocks, false);
    if SawEmpty(c, size, own, blocks) {
      TracksToTheEnd(PushAll(c, own, blocks), FreeEach(c, size, own, blocks).value, size);
    }
  }

  /** A single free is a batch of one. */
  lemma DeallocateIsBatchOfOne(c: ClassState, size: nat, own: map<Addr, Addr>, b: Addr)
    requires Owner(own, b) in c.free
    ensures FreeBatch(c, size, own, [b]) == Deallocate(c, size, Owner(own, b), b)
  {
    var d := Push(c, Owner(own, b), b);
    assert [b][1..] == [];
    assert PushAll(d, own, []) == d && !SawEmpty(d, size, own, []);
  }

  lemma {:induction false} PushAllOk(c: ClassState, size: nat, own: map<Addr, Addr>, blocks: seq<Addr>)
    requires Ok(c, size) && BatchOk(c, size, own, blocks)
    requires forall b | b in blocks :: Owner(own, b) in c.free
    ensures Ok(PushAll(c, own, blocks), size) && PushAll(c, own, blocks).slabs == c.slabs
    decreases |blocks|
  {
    if blocks != [] {
      var b := blocks[0];
      assert Outstanding(c, size, Owner(own, b), b);
      PushProperties(c, size, Owner(own, b), b);
      BatchTail(c, size, own, blocks);
      PushAllOk(Push(c, Owner(own, b), b), size, own, blocks[1..]);
    }
  }

  lemma {:induction false} PushAllFreeSet(c: ClassState, own: map<Addr, Addr>, blocks: seq<Addr>)
    requires c.free.Keys == Elems(c.slabs)
    requires forall b | b in blocks :: Owner(own, b) in c.free
    ensures FreeSet(PushAll(c, own, blocks)) == FreeSet(c) + Elems(blocks)
    decreases |blocks|
  {
    if blocks != [] {
      var b := blocks[0];
      var d := Push(c, Owner(own, b), b);
      PushFreeSet(c, Owner(own, b), b);
      assert d.free.Keys == c.free.Keys;
      PushAllFreeSet(d, own, blocks[1..]);
      assert Elems(blocks) == {b} + Elems(blocks[1..]);
    }
  }

  lemma PushAllProperties(c: ClassState, size: nat, own: map<Addr, Addr>, blocks: seq<Addr>)
    requires Ok(c, size) && BatchOk(c, size, own, blocks)
    ensures forall b | b in blocks :: Owner(own, b) in c.free
    ensures var d := PushAll(c, own, blocks);
      Ok(d, size) && d.slabs == c.slabs && FreeSet(d) == FreeSet(c) + Elems(blocks)
  {
    assert forall b | b in blocks :: Outstanding(c, size, Owner(own, b), b);
    PushAllOk(c, size, own, blocks);
    PushAllFreeSet(c, own, blocks);
  }

  lemma {:induction false} NoNewEmpty(c: ClassState, size: nat, own: map<Addr, Addr>, blocks: seq<Addr>, x: Addr)
    requires forall b | b in blocks :: Owner(own, b) in c.free
    requires !SawEmpty(c, size, own, blocks)
    ensures Empty(PushAll(c, own, blocks).free, size, x) ==> Empty(c.free, size, x)
    decreases |blocks|
  {
    if blocks != [] {
      assert forall b | b in blocks[1..] :: b in blocks;
      NoNewEmpty(Push(c, Owner(own, blocks[0]), blocks[0]), size, own, blocks[1..], x);
    }
  }

  /** Freeing a batch keeps the class invariant; a slab goes away only when all its blocks are free, and
      among the surviving slabs exactly the batch joined the free set. */
  lemma FreeBatchProperties(c: ClassState, size: nat, own: map<Addr, Addr>, blocks: seq<Addr>)
    requires Ok(c, size) && BatchOk(c, size, own, blocks)
    ensures forall b | b in blocks :: Owner(own, b) in c.free
    ensures var d := FreeBatch(c, size, own, blocks);
      && Ok(d, size)
      && (AtMostOneEmpty(c, size) ==> AtMostOneEmpty(d, size))
      && |d.slabs| <= |c.slabs|
      && (forall p | p in d.slabs :: p in c.slabs)
      && (forall p, b | p in c.slabs && IsBlock(p, size, b) :: p !in d.slabs ==> b in FreeSet(c) || b in blocks)
      && (forall p, b | p in d.slabs && IsBlock(p, size, b) ::
            b in FreeSet(d) <==> b in FreeSet(c) || b in blocks)
      && (forall b | b in FreeSet(d) :: b in FreeSet(c) || b in blocks)
  {
    var e := PushAll(c, own, blocks);
    PushAllProperties(c, size, own, blocks);
    if SawEmpty(c, size, own, blocks) {
      ReleaseProperties(e, size);
      var d := Release(e, size);
      forall p, b | p in c.slabs && IsBlock(p, size, b) && p !in d.slabs ensures b in FreeSet(e) {
        assert SlabOk(p, size, FreeOf(e, p));
        FullListHasAll(p, size, FreeOf(e, p), b);
      }
      forall p, b | p in d.slabs && IsBlock(p, size, b) ensures b in FreeSet(d) <==> b in FreeSet(e) {
        FreeBlockOwner(d, size, p, b);
        FreeBlockOwner(e, size, p, b);
      }
      forall b | b in FreeSet(d) ensures b in FreeSet(e) {
        var p :| p in d.slabs && b in FreeOf(d, p);
        assert b in FreeOf(e, p);
      }
      NoDupCard(d.slabs);
      NoDupCard(c.slabs);
      SubsetCard(Elems(d.slabs), Elems(c.slabs));
    } else {
      forall p ensures Empty(e.free, size, p) ==> Empty(c.free, size, p) {
        NoNewEmpty(c, size, own, blocks, p);
      }
      forall p, b | p in e.slabs && IsBlock(p, size, b)
        ensures b in FreeSet(e) <==> b in FreeSet(c) || b in blocks
      {
      }
    }
  }

  // ---- what a free comes to, exactly ----

  /** The blocks of the batch that slab p owns, the last one freed first. */
  function OwnedBy(own: map<Addr, Addr>, blocks: seq<Addr>, p: Addr): seq<Addr>
  {
    if blocks == [] then []
    else OwnedBy(own, blocks[1..], p) + (if Owner(own, blocks[0]) == p then [blocks[0]] else [])
  }

  /** Each slab's list after the frees: its blocks of the batch, newest first, in front of what it had. */
  lemma {:induction false} PushAllLists(c: ClassState, own: map<Addr, Addr>, blocks: seq<Addr>, p: Addr)
    requires forall b | b in blocks :: Owner(own, b) in c.free
    ensures FreeOf(PushAll(c, own, blocks), p) == OwnedBy(own, blocks, p) + FreeOf(c, p)
    ensures PushAll(c, own, blocks).current == c.current && PushAll(c, own, blocks).slabs == c.slabs
    decreases |blocks|
  {
    if blocks != [] {
      var q := Owner(own, blocks[0]);
      var d := Push(c, q, blocks[0]);
      PushAllLists(d, own, blocks[1..], p);
      if q == p {
        assert OwnedBy(own, blocks[1..], p) + ([blocks[0]] + FreeOf(c, p)) == OwnedBy(own, blocks, p) + FreeOf(c, p);
      } else {
        assert OwnedBy(own, blocks, p) == OwnedBy(own, blocks[1..], p);
      }
    }
  }

  /** Slab p's list once the batch is freed. */
  function ListAfter(c: ClassState, own: map<Addr, Addr>, blocks: seq<Addr>, p: Addr): seq<Addr>
  {
    OwnedBy(own, blocks, p) + FreeOf(c, p)
  }

  /** Some block of the batch goes to a slab that ends with all its blocks free. */
  ghost predicate FillsSome(c: ClassState, size: nat, own: map<Addr, Addr>, blocks: seq<Addr>)
  {
    exists b :: b in blocks && |ListAfter(c, own, blocks, Owner(own, b))| == Capacity(size)
  }

  lemma {:induction false} NoneOwned(own: map<Addr, Addr>, blocks: seq<Addr>, p: Addr)
    requires forall b | b in blocks :: Owner(own, b) != p
    ensures OwnedBy(own, blocks, p) == []
  {
    if blocks != [] { NoneOwned(own, blocks[1..], p); }
  }

  lemma ListAfterFits(c: ClassState, size: nat, own: map<Addr, Addr>, blocks: seq<Addr>, p: Addr)
    requires Ok(c, size) && BatchOk(c, size, own, blocks) && (forall b | b in blocks :: Owner(own, b) in c.free) && p in c.slabs
    ensures |ListAfter(c, own, blocks, p)| <= Capacity(size)
  {
    PushAllOk(c, size, own, blocks);
    PushAllLists(c, own, blocks, p);
    var d := PushAll(c, own, blocks);
    assert SlabOk(p, size, FreeOf(d, p));
    ListBound(p, size, FreeOf(d, p));
  }

  /** A batch saw an empty slab exactly when some slab it freed to ends with all its blocks free. */
  lemma {:induction false} SawEmptyIff(c: ClassState, size: nat, own: map<Addr, Addr>, blocks: seq<Addr>)
    requires Ok(c, size) && BatchOk(c, size, own, blocks) && forall b | b in blocks :: Owner(own, b) in c.free
    ensures SawEmpty(c, size, own, blocks) <==> FillsSome(c, size, own, blocks)
    decreases |blocks|
  {
    if blocks != [] {
      var q := Owner(own, blocks[0]);
      var d := Push(c, q, blocks[0]);
      assert Outstanding(c, size, q, blocks[0]);
      PushProperties(c, size, q, blocks[0]);
      BatchTail(c, size, own, blocks);
      SawEmptyIff(d, size, own, blocks[1..]);
      FillsTail(c, d, size, own, blocks, q);
    }
  }

  /** Freeing the first block moves it from the batch to its slab's list, and each slab ends as it would have. */
  lemma ListAfterTail(c: ClassState, own: map<Addr, Addr>, blocks: seq<Addr>, p: Addr)
    requires blocks != [] && Owner(own, blocks[0]) in c.free
    ensures ListAfter(c, own, blocks, p) == ListAfter(Push(c, Owner(own, blocks[0]), blocks[0]), own, blocks[1..], p)
  {
    var q := Owner(own, blocks[0]);
    if q == p {
      assert OwnedBy(own, blocks[1..], p) + [blocks[0]] + FreeOf(c, p) == OwnedBy(own, blocks[1..], p) + ([blocks[0]] + FreeOf(c, p));
    } else {
      assert OwnedBy(own, blocks, p) == OwnedBy(own, blocks[1..], p);
    }
  }

  lemma FillsTail(c: ClassState, d: ClassState, size: nat, own: map<Addr, Addr>, blocks: seq<Addr>, q: Addr)
    requires blocks != [] && q == Owner(own, blocks[0]) && q in c.free && d == Push(c, q, blocks[0]) && q in d.slabs
    requires Ok(d, size) && BatchOk(d, size, own, blocks[1..]) && forall b | b in blocks[1..] :: Owner(own, b) in d.free
    ensures FillsSome(c, size, own, blocks) <==> |FreeOf(d, q)| == Capacity(size) || FillsSome(d, size, own, blocks[1..])
  {
    if FillsSome(d, size, own, blocks[1..]) {
      var b :| b in blocks[1..] && |ListAfter(d, own, blocks[1..], Owner(own, b))| == Capacity(size);
      ListAfterTail(c, own, blocks, Owner(own, b));
      assert b in blocks;
    }
    ListAfterFits(d, size, own, blocks[1..], q);
    if |FreeOf(d, q)| == Capacity(size) {
      ListAfterTail(c, own, blocks, q);
      assert blocks[0] in blocks;
    }
    if FillsSome(c, size, own, blocks) {
      var b :| b in blocks && |ListAfter(c, own, blocks, Owner(own, b))| == Capacity(size);
      FillsTailAt(c, d, size, own, blocks, q, b);
    }
  }

  lemma FillsTailAt(c: ClassState, d: ClassState, size: nat, own: map<Addr, Addr>, blocks: seq<Addr>, q: Addr, b: Addr)
    requires blocks != [] && q == Owner(own, blocks[0]) && q in c.free && d == Push(c, q, blocks[0])
    requires b in blocks && |ListAfter(c, own, blocks, Owner(own, b))| == Capacity(size)
    ensures |FreeOf(d, q)| == Capacity(size) || FillsSome(d, size, own, blocks[1..])
  {
    ListAfterTail(c, own, blocks, Owner(own, b));
    if x :| x in blocks[1..] && Owner(own, x) == Owner(own, b) {
    } else {
      assert blocks == [blocks[0]] + blocks[1..];
      NoneOwned(own, blocks[1..], q);
    }
  }

  /** Slab p ends with all its blocks free, and no slab before it in slabs_ does. */
  ghost predicate FirstFilled(c: ClassState, size: nat, own: map<Addr, Addr>, blocks: seq<Addr>, p: Addr)
  {
    exists i {:trigger c.slabs[i]} :: 0 <= i < |c.slabs| && c.slabs[i] == p && |ListAfter(c, own, blocks, p)| == Capacity(size)
      && forall j {:trigger c.slabs[j]} | 0 <= j < i :: |ListAfter(c, own, blocks, c.slabs[j])| != Capacity(size)
  }

  /** The whole state after a batch free, of one block or many: free lists grow at the front, newest first; unless
      a slab was filled nothing else moves; otherwise of the filled slabs the first in order stays and the others
      go, and current_ stays if it survives with a free block and else becomes the filled slab that stayed. */
  lemma FreeBatchExactly(c: ClassState, size: nat, own: map<Addr, Addr>, blocks: seq<Addr>)
    requires Ok(c, size) && BatchOk(c, size, own, blocks)
    ensures forall b | b in blocks :: Owner(own, b) in c.free
    ensures var d := FreeBatch(c, size, own, blocks);
      && (forall p | p in d.slabs :: FreeOf(d, p) == ListAfter(c, own, blocks, p))
      && (!FillsSome(c, size, own, blocks) ==> d.slabs == c.slabs && d.current == c.current)
      && (FillsSome(c, size, own, blocks) ==>
            && (forall p :: p in d.slabs <==> p in c.slabs && (|ListAfter(c, own, blocks, p)| < Capacity(size) || FirstFilled(c, size, own, blocks, p)))
            && (if c.current in d.slabs && ListAfter(c, own, blocks, c.current) != [] then d.current == c.current
                else FirstFilled(c, size, own, blocks, d.current)))
  {
    var e := PushAll(c, own, blocks);
    PushAllProperties(c, size, own, blocks);
    SawEmptyIff(c, size, own, blocks);
    forall p ensures FreeOf(e, p) == ListAfter(c, own, blocks, p) { PushAllLists(c, own, blocks, p); }
    PushAllLists(c, own, blocks, NULL);
    if FillsSome(c, size, own, blocks) {
      forall p | p in c.slabs ensures |ListAfter(c, own, blocks, p)| <= Capacity(size) { ListAfterFits(c, size, own, blocks, p); }
      ReleasedExactly(c, e, size, own, blocks);
    }
  }

  lemma ReleasedExactly(c: ClassState, e: ClassState, size: nat, own: map<Addr, Addr>, blocks: seq<Addr>)
    requires Ok(e, size) && e.slabs == c.slabs && e.current == c.current && (forall p :: FreeOf(e, p) == ListAfter(c, own, blocks, p))
    requires FillsSome(c, size, own, blocks) && forall b | b in blocks :: Owner(own, b) in c.slabs
    requires forall p | p in c.slabs :: |ListAfter(c, own, blocks, p)| <= Capacity(size)
    ensures var d := Release(e, size);
      && (forall p | p in d.slabs :: FreeOf(d, p) == ListAfter(c, own, blocks, p))
      && (forall p :: p in d.slabs <==> p in c.slabs && (|ListAfter(c, own, blocks, p)| < Capacity(size) || FirstFilled(c, size, own, blocks, p)))
      && (if c.current in d.slabs && ListAfter(c, own, blocks, c.current) != [] then d.current == c.current
          else FirstFilled(c, size, own, blocks, d.current))
  {
    var d := Release(e, size);
    ReleaseProperties(e, size);
    RetainedIsFirst(c, e, size, own, blocks);
    NotNull(e, size);
    forall p ensures p in d.slabs <==> p in c.slabs && (|ListAfter(c, own, blocks, p)| < Capacity(size) || FirstFilled(c, size, own, blocks, p)) {
      assert FreeOf(e, p) == ListAfter(c, own, blocks, p);
      if FirstFilled(c, size, own, blocks, p) { FirstFilledIsOne(c, size, own, blocks, p, Retained(e, size)); }
    }
  }

  lemma FirstFilledIsOne(c: ClassState, size: nat, own: map<Addr, Addr>, blocks: seq<Addr>, p: Addr, q: Addr)
    requires FirstFilled(c, size, own, blocks, p) && FirstFilled(c, size, own, blocks, q)
    ensures p == q
  {
    var i :| 0 <= i < |c.slabs| && c.slabs[i] == p && |ListAfter(c, own, blocks, p)| == Capacity(size)
      && forall j {:trigger c.slabs[j]} | 0 <= j < i :: |ListAfter(c, own, blocks, c.slabs[j])| != Capacity(size);
    var k :| 0 <= k < |c.slabs| && c.slabs[k] == q && |ListAfter(c, own, blocks, q)| == Capacity(size)
      && forall j {:trigger c.slabs[j]} | 0 <= j < k :: |ListAfter(c, own, blocks, c.slabs[j])| != Capacity(size);
    assert i <= k && k <= i;
  }

  lemma RetainedIsFirst(c: ClassState, e: ClassState, size: nat, own: map<Addr, Addr>, blocks: seq<Addr>)
    requires Ok(e, size) && e.slabs == c.slabs && (forall p :: FreeOf(e, p) == ListAfter(c, own, blocks, p))
    requires FillsSome(c, size, own, blocks) && forall b | b in blocks :: Owner(own, b) in c.slabs
    ensures Retained(e, size) != NULL && FirstFilled(c, size, own, blocks, Retained(e, size))
  {
    NotNull(e, size);
    EmptyIsFilled(c, e, size, own, blocks);
    var b :| b in blocks && |ListAfter(c, own, blocks, Owner(own, b))| == Capacity(size);
    var k :| 0 <= k < |c.slabs| && c.slabs[k] == Owner(own, b);
    var f := FirstEmpty(e.slabs, e.free, size, 0);
    assert c.slabs[f] == Retained(e, size);
  }

  lemma EmptyIsFilled(c: ClassState, e: ClassState, size: nat, own: map<Addr, Addr>, blocks: seq<Addr>)
    requires Ok(e, size) && e.slabs == c.slabs && (forall p :: FreeOf(e, p) == ListAfter(c, own, blocks, p))
    ensures forall j {:trigger c.slabs[j]} | 0 <= j < |c.slabs| ::
              Empty(e.free, size, c.slabs[j]) <==> |ListAfter(c, own, blocks, c.slabs[j])| == Capacity(size)
  {
    forall j {:trigger c.slabs[j]} | 0 <= j < |c.slabs|
      ensures Empty(e.free, size, c.slabs[j]) <==> |ListAfter(c, own, blocks, c.slabs[j])| == Capacity(size)
    {
      assert c.slabs[j] in e.slabs;
      assert FreeOf(e, c.slabs[j]) == ListAfter(c, own, blocks, c.slabs[j]);
    }
  }

  // ---- blocks outside the free lists ----

  ghost function Used(c: ClassState, size: nat): seq<int>
  {
    seq(|c.slabs|, i requires 0 <= i < |c.slabs| => Capacity(size) - |FreeOf(c, c.slabs[i])|)
  }

  /** How many blocks of the class's slabs are off their free list. */
  ghost function Outside(c: ClassState, size: nat): int
  {
    Sum(Used(c, size))
  }

  lemma {:induction false} SumConstant(a: seq<int>, k: int)
    requires forall i | 0 <= i < |a| :: a[i] == k
    ensures Sum(a) == |a| * k
  {
    if a != [] { SumConstant(a[1..], k); }
  }

  lemma {:induction false} SumAppend(a: seq<int>, x: int)
    ensures Sum(a + [x]) == Sum(a) + x
  {
    if a == [] {
      assert [x][1..] == [];
    } else {
      SumAppend(a[1..], x);
      assert (a + [x])[1..] == a[1..] + [x];
    }
  }

  /** Mapping another slab means every block of all the others was in use. */
  lemma NewSlabOnlyWhenAllUsed(c: ClassState, size: nat, p: Addr)
    requires Ok(c, size) && FreshBase(c, Some(p)) && Exhausted(c)
    ensures Outside(c, size) == |c.slabs| * Capacity(size)
    ensures Outside(Allocate(c, size, Some(p)).state, size) == |c.slabs| * Capacity(size) + 1
  {
    SumConstant(Used(c, size), Capacity(size));
    SumAppend(Used(c, size), 1);
    AllocateExistingProperties(c, size);
    InitListProperties(p, size, Capacity(size));
    var d := Allocate(c, size, Some(p)).state;
    assert d.slabs == c.slabs + [p];
    assert FreeOf(d, p) == InitList(p, size, Capacity(size))[1..];
    assert p !in c.slabs by { assert p in c.slabs ==> Apart(p, p); }
    forall i | 0 <= i < |c.slabs| ensures Used(d, size)[i] == Capacity(size) {
      assert c.slabs[i] in c.slabs && FreeOf(c, c.slabs[i]) == [];
    }
    assert Used(d, size) == Used(c, size) + [1];
  }

  /** The number of slabs a peak of `peak` used blocks can justify. */
  function SlabsFor(peak: nat, capacity: nat): nat
    requires capacity > 0
  {
    (peak + capacity - 1) / capacity
  }

  lemma SlabsForBound(n: nat, peak: nat, capacity: nat)
    requires capacity > 0 && (n == 0 || (n - 1) * capacity < peak)
    ensures n <= SlabsFor(peak, capacity)
  {
    var m := SlabsFor(peak, capacity);
    DivMod(peak + capacity - 1, capacity);
    if m < n { MulMono(m, n - 1, capacity); }
  }

  // ---- the three-stage slow path ----

  /** allocate_by_class_index with a drain hook: probe, drain the foreign bin, probe again, grow. */
  ghost function ThreeStage(c: ClassState, size: nat, own: map<Addr, Addr>, bin: seq<Addr>, os: Option<Addr>): Taken
    requires Capacity(size) > 0 && forall b | b in bin :: Owner(own, b) in c.free
  {
    var first := AllocateExisting(c);
    if first.block != NULL then first
    else
      var drained := if bin == [] then c else FreeBatch(c, size, own, bin);
      var second := AllocateExisting(drained);
      if second.block != NULL then second else Allocate(drained, size, os)
  }

  /** With an empty bin the slow path is plain allocate, state and block alike, so a stale hint that
      sends the caller there changes nothing. */
  lemma ThreeStageWithEmptyBin(c: ClassState, size: nat, own: map<Addr, Addr>, os: Option<Addr>)
    requires Ok(c, size)
    ensures ThreeStage(c, size, own, [], os) == Allocate(c, size, os)
  {
    AllocateExistingProperties(c, size);
  }

  /** What the slow path serves: whatever the class has, else what it has once the bin is freed, else a new slab's
      last block; the bin is drained only when every slab is full. */
  lemma ThreeStageExactly(c: ClassState, size: nat, own: map<Addr, Addr>, bin: seq<Addr>, os: Option<Addr>)
    requires Ok(c, size) && BatchOk(c, size, own, bin) && FreshBase(c, os)
    ensures forall b | b in bin :: Owner(own, b) in c.free
    ensures !Exhausted(c) ==> ThreeStage(c, size, own, bin, os) == AllocateExisting(c)
    ensures Exhausted(c) && bin != [] ==> ThreeStage(c, size, own, bin, os) == AllocateExisting(FreeBatch(c, size, own, bin))
    ensures Exhausted(c) && bin == [] && os.None? ==> ThreeStage(c, size, own, bin, os) == Taken(c, NULL, NULL)
    ensures Exhausted(c) && bin == [] && os.Some? ==>
              var blocks := InitList(os.value, size, Capacity(size));
              blocks != [] && ThreeStage(c, size, own, bin, os) ==
              Taken(ClassState(c.slabs + [os.value], os.value, c.free[os.value := blocks[1..]]), blocks[0], os.value)
  {
    FreeBatchProperties(c, size, own, bin);
    AllocateExistingProperties(c, size);
    if os.Some? { InitListProperties(os.value, size, Capacity(size)); }
    if Exhausted(c) && bin != [] {
      AllocateExistingProperties(FreeBatch(c, size, own, bin), size);
      BatchLeavesFreeBlock(c, size, own, bin);
    }
  }

  /** The slow path asks the OS for a slab exactly when every slab is full and the bin is empty. */
  lemma ThreeStageGrowsOnlyWhenDry(c: ClassState, size: nat, own: map<Addr, Addr>, bin: seq<Addr>, p: Addr)
    requires Ok(c, size) && BatchOk(c, size, own, bin) && FreshBase(c, Some(p))
    ensures forall b | b in bin :: Owner(own, b) in c.free
    ensures p in ThreeStage(c, size, own, bin, Some(p)).state.slabs <==> Exhausted(c) && bin == []
  {
    FreeBatchProperties(c, size, own, bin);
    AllocateExistingProperties(c, size);
    AllocateProperties(c, size, Some(p));
    if Exhausted(c) && bin != [] {
      var d := FreeBatch(c, size, own, bin);
      AllocateExistingProperties(d, size);
      BatchLeavesFreeBlock(c, size, own, bin);
    }
  }

  /** After a non-empty batch some slab of the class has a free block: release never takes the last one. */
  lemma BatchLeavesFreeBlock(c: ClassState, size: nat, own: map<Addr, Addr>, blocks: seq<Addr>)
    requires Ok(c, size) && BatchOk(c, size, own, blocks) && blocks != []
    ensures forall b | b in blocks :: Owner(own, b) in c.free
    ensures !Exhausted(FreeBatch(c, size, own, blocks))
  {
    FreeBatchProperties(c, size, own, blocks);
    BatchEqualsEach(c, size, own, blocks);
    var d := FreeBatch(c, size, own, blocks);
    if SawEmpty(c, size, own, blocks) {
      var f := FirstEmpty(c.slabs, PushAll(c, own, blocks).free, size, 0);
      assert d.slabs[f] in d.slabs && Empty(d.free, size, d.slabs[f]);
    } else {
      var b := blocks[0];
      assert Outstanding(c, size, Owner(own, b), b);
      assert b in FreeSet(d);
    }
  }
}
