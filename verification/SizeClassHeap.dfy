/** SizeClass: slabs_, current_ and the free lists in memory, each method proved to do what SizeClassSpec says. */
module SizeClassHeap {
  import opened Lists
  import opened Layout
  import opened SizeClassSpec
  import opened SlabHeap

  /** The OS maps a region apart from everything mapped, or refuses. */
  ghost predicate FreshMapping(slabs: map<Addr, SlabHeader>, os: Option<Addr>)
  {
    os.Some? ==> IsBase(os.value) && forall p | p in slabs :: Apart(p, os.value)
  }

  /** Slabs outside `mine` and `mine'` are as before; of these, exactly `mine'` are mapped now. */
  ghost predicate Elsewhere(s: map<Addr, SlabHeader>, s': map<Addr, SlabHeader>, mine: seq<Addr>, mine': seq<Addr>)
  {
    && (forall p | p !in mine && p !in mine' :: (p in s' <==> p in s) && (p in s ==> s'[p] == s[p]))
    && (forall p | p in mine || p in mine' :: p in s' <==> p in mine')
  }

  /** Only the block's raw_ptr and total_size were written. */
  ghost predicate Headed(h: map<Addr, BlockHeader>, h': map<Addr, BlockHeader>, block: Addr, slab: Addr)
  {
    var was := if block in h then h[block] else BlockHeader(0, 0, 0, NULL, 0);
    h' == h[block := was.(rawPtr := slab, totalSize := SLAB_SIZE)]
  }

  lemma MappedSlabs(c: ClassState, size: nat, w: map<Addr, Addr>, slabs: map<Addr, SlabHeader>)
    requires Intact(c, size, w, slabs)
    ensures forall p | p in c.slabs :: p in slabs
    ensures Elsewhere(slabs, slabs, c.slabs, c.slabs)
  {
    forall p | p in c.slabs ensures p in slabs { assert FreeOf(c, p) == FreeOf(c, p); }
  }

  lemma IntactAt(c: ClassState, size: nat, w: map<Addr, Addr>, slabs: map<Addr, SlabHeader>, p: Addr)
    requires Intact(c, size, w, slabs) && p in c.slabs
    ensures p in slabs && Linked(w, slabs[p], size, FreeOf(c, p))
  {
  }

  lemma ElsewhereWrite(s0: map<Addr, SlabHeader>, s: map<Addr, SlabHeader>, mine: seq<Addr>, p: Addr, h: SlabHeader)
    requires Elsewhere(s0, s, mine, mine) && p in mine
    ensures Elsewhere(s0, s[p := h], mine, mine)
  {
  }

  lemma ElsewhereUnmap(s0: map<Addr, SlabHeader>, s: map<Addr, SlabHeader>, mine: seq<Addr>, now: seq<Addr>, p: Addr, next: seq<Addr>)
    requires Elsewhere(s0, s, mine, now) && (forall q | q in now :: q in mine)
    requires p in now && forall q :: q in next <==> q in now && q != p
    ensures Elsewhere(s0, s - {p}, mine, next)
  {
  }

  datatype Touched = Touched(words: map<Addr, Addr>, slabs: map<Addr, SlabHeader>)

  /** What memory may be after only the links of `blocks` and the headers of the slabs `mine` were written. */
  ghost function Touches(w: map<Addr, Addr>, s: map<Addr, SlabHeader>, blocks: iset<Addr>, mine: seq<Addr>): iset<Touched>
  {
    iset m: Touched | OnlyAt(w, m.words, blocks) && Elsewhere(s, m.slabs, mine, mine)
  }

  lemma TouchesThen(w0: map<Addr, Addr>, s0: map<Addr, SlabHeader>, w1: map<Addr, Addr>, s1: map<Addr, SlabHeader>,
                    w2: map<Addr, Addr>, s2: map<Addr, SlabHeader>, list: seq<Addr>, b: Addr, mine: seq<Addr>)
    requires Touched(w1, s1) in Touches(w0, s0, Set(list), mine) && Touched(w2, s2) in Touches(w1, s1, iset{b}, mine) && b in list
    ensures Touched(w2, s2) in Touches(w0, s0, Set(list), mine)
  {
    OnlyAtThen(w0, w1, w2, Set(list), b);
    ElsewhereThen(s0, s1, s2, mine, mine);
  }

  lemma ElsewhereThen(s0: map<Addr, SlabHeader>, s1: map<Addr, SlabHeader>, s2: map<Addr, SlabHeader>, mine: seq<Addr>, now: seq<Addr>)
    requires Elsewhere(s0, s1, mine, mine) && Elsewhere(s1, s2, mine, now) && forall q | q in now :: q in mine
    ensures Elsewhere(s0, s2, mine, now)
  {
  }

  /** A class together with the memory its free lists live in. */
  datatype Picture = Picture(c: ClassState, words: map<Addr, Addr>, slabs: map<Addr, SlabHeader>)

  ghost function Sound(size: nat): iset<Picture>
  {
    iset v: Picture | Ok(v.c, size) && Intact(v.c, size, v.words, v.slabs)
  }

  ghost function Settled(size: nat): iset<Picture>
  {
    iset v: Picture | v in Sound(size) && AtMostOneEmpty(v.c, size)
  }

  class SizeClass {
    const blockSize: nat
    const nodeId: nat
    const mem: Memory
    var slabs: seq<Addr>
    var current: Addr
    ghost var free: map<Addr, seq<Addr>>

    ghost function State(): ClassState
      reads this
    {
      ClassState(slabs, current, free)
    }

    ghost function Now(): Picture
      reads this, mem
    {
      Picture(State(), mem.words, mem.slabs)
    }

    /** The class invariant, with free lists as memory holds them. */
    ghost predicate Linkage()
      reads this, mem
    {
      Now() in Sound(blockSize)
    }

    /** What holds between operations. */
    ghost predicate Valid()
      reads this, mem
    {
      Now() in Settled(blockSize)
    }

    constructor (blockSize: nat, nodeId: nat, mem: Memory)
      requires Capacity(blockSize) > 0
      ensures Valid() && State() == ClassState([], NULL, map[])
      ensures this.blockSize == blockSize && this.nodeId == nodeId && this.mem == mem
    {
      this.blockSize, this.nodeId, this.mem := blockSize, nodeId, mem;
      slabs, current, free := [], NULL, map[];
    }

    // ---- users ----

    /** Whatever a user writes into the payload of a block it holds, no free list changes. */
    method WritePayload(ghost slab: Addr, block: Addr, at: Addr, value: Addr)
      requires Valid() && Outstanding(State(), blockSize, slab, block)
      requires Link(block) <= at < block + Stride(blockSize)
      modifies mem`words
      ensures Valid() && mem.words == old(mem.words)[at := value]
    {
      PayloadIsPrivate(State(), blockSize, slab, block, at);
      IntactFrame(State(), blockSize, mem.words, mem.words[at := value], mem.slabs, mem.slabs, iset{at - HEADER});
      mem.words := mem.words[at := value];
    }

    // ---- allocation ----

    /** slab->allocate_block() on a slab of this class. */
    method TakeFrom(slab: Addr) returns (block: Addr)
      requires Linkage() && slab in slabs
      requires FreeOf(State(), slab) != []
      modifies this`free, mem`headers, mem`slabs
      ensures Linkage() && Taken(State(), block, slab) == Pop(old(State()), slab)
      ensures block != NULL
      ensures Headed(old(mem.headers), mem.headers, block, slab)
      ensures Elsewhere(old(mem.slabs), mem.slabs, slabs, slabs)
    {
      ghost var c, slabs0 := State(), mem.slabs;
      NotNull(c, blockSize);
      PopProperties(c, blockSize, slab);
      block := AllocateBlock(mem, slab, blockSize, FreeOf(c, slab));
      IntactPop(c, blockSize, mem.words, slabs0, slab, mem.slabs[slab]);
      MappedSlabs(c, blockSize, mem.words, slabs0);
      ElsewhereWrite(slabs0, slabs0, slabs, slab, mem.slabs[slab]);
      free := free[slab := free[slab][1..]];
    }

    /** SizeClass::allocate_existing; null when every slab is full. */
    method AllocateExisting() returns (block: Addr)
      requires Valid()
      modifies this, mem`headers, mem`slabs
      ensures Valid()
      ensures Taken(State(), block, if block == NULL then NULL else mem.HeaderOf(block).rawPtr)
           == SizeClassSpec.AllocateExisting(old(State()))
      ensures block == NULL ==> mem.headers == old(mem.headers)
      ensures block != NULL ==> Headed(old(mem.headers), mem.headers, block, current)
      ensures Elsewhere(old(mem.slabs), mem.slabs, slabs, slabs)
    {
      AllocateExistingProperties(State(), blockSize);
      NotNull(State(), blockSize);
      MappedSlabs(State(), blockSize, mem.words, mem.slabs);
      if current != NULL {
        var some := HasFree(mem, current, blockSize, FreeOf(State(), current));
        if some {
          block := TakeFrom(current);
          return;
        }
      }
      var slab := ScanSlabs();
      if slab == NULL { return NULL; }
      SwitchCurrent(State(), blockSize, mem.words, mem.slabs, slab);
      current := slab;
      block := TakeFrom(current);
    }

    /** The scan of slabs_ for one that has_free. */
    method ScanSlabs() returns (slab: Addr)
      requires Linkage()
      ensures slab == FirstFree(State(), slabs)
    {
      var i := 0;
      while i < |slabs|
        invariant 0 <= i <= |slabs|
        invariant FirstFree(State(), slabs) == FirstFree(State(), slabs[i..])
      {
        assert slabs[i] in slabs;
        var some := HasFree(mem, slabs[i], blockSize, FreeOf(State(), slabs[i]));
        if some { return slabs[i]; }
        i := i + 1;
      }
      slab := NULL;
    }

    /** SizeClass::allocate, and allocate_new_slab, which has the same body: the existing slabs are searched
        again before a new one is mapped. None is bad_alloc from the OS. */
    method Allocate(os: Option<Addr>) returns (r: Option<Addr>)
      requires Valid() && FreshMapping(mem.slabs, os)
      modifies this, mem
      ensures Valid()
      ensures r.Some? ==> r.value != NULL
      ensures Taken(State(), if r.Some? then r.value else NULL, if r.Some? then mem.HeaderOf(r.value).rawPtr else NULL)
           == SizeClassSpec.Allocate(old(State()), blockSize, os)
      ensures r.None? <==> os.None? && Exhausted(old(State()))
      ensures r.None? ==> mem.headers == old(mem.headers)
      ensures r.Some? ==> Headed(old(mem.headers), mem.headers, r.value, current)
      ensures OnlyAt(old(mem.words), mem.words, if slabs == old(slabs) then iset{} else BlocksOf(current, blockSize))
      ensures Elsewhere(old(mem.slabs), mem.slabs, old(slabs), slabs)
    {
      ghost var c := State();
      SlabsAreMapped(c, blockSize, mem.words, mem.slabs, os);
      AllocateProperties(c, blockSize, os);
      AllocateExistingProperties(c, blockSize);
      var block := AllocateExisting();
      if block != NULL { return Some(block); }
      if os.None? { return None; }
      ghost var w, s := mem.words, mem.slabs;
      AddSlabProperties(c, blockSize, os.value);
      current := os.value;
      InitSlab(mem, current, blockSize, nodeId);
      IntactAddSlab(c, blockSize, w, mem.words, s, current, mem.slabs[current]);
      slabs := slabs + [current];
      free := free[current := InitList(current, blockSize, Capacity(blockSize))];
      block := TakeFrom(current);
      r := Some(block);
    }

    // ---- freeing ----

    /** slab->free_block(block) on a slab of this class. */
    method GiveTo(slab: Addr, block: Addr)
      requires Linkage() && Outstanding(State(), blockSize, slab, block)
      modifies this`free, mem`words, mem`slabs
      ensures Linkage() && slab in old(free) && State() == Push(old(State()), slab, block)
      ensures OnlyAt(old(mem.words), mem.words, iset{block})
      ensures Elsewhere(old(mem.slabs), mem.slabs, slabs, slabs)
    {
      ghost var c, w, s := State(), mem.words, mem.slabs;
      assert SlabOk(slab, blockSize, FreeOf(c, slab));
      BlockBounds(slab, blockSize, block);
      PushProperties(c, blockSize, slab, block);
      FreeBlock(mem, slab, block, blockSize, FreeOf(c, slab));
      IntactPush(c, blockSize, w, mem.words, s, slab, block, mem.slabs[slab]);
      MappedSlabs(c, blockSize, w, s);
      ElsewhereWrite(s, s, slabs, slab, mem.slabs[slab]);
      free := free[slab := [block] + free[slab]];
    }

    /** SizeClass::deallocate; false is invalid_argument for a block whose raw_ptr is null. */
    method Deallocate(block: Addr) returns (ok: bool)
      requires Valid()
      requires mem.HeaderOf(block).rawPtr != NULL ==> Outstanding(State(), blockSize, mem.HeaderOf(block).rawPtr, block)
      modifies this, mem`words, mem`slabs
      ensures Valid() && ok == (old(mem.HeaderOf(block)).rawPtr != NULL)
      ensures !ok ==> State() == old(State()) && mem.words == old(mem.words) && mem.slabs == old(mem.slabs)
      ensures ok ==> old(mem.HeaderOf(block)).rawPtr in old(free)
      ensures ok ==> State() == SizeClassSpec.Deallocate(old(State()), blockSize, old(mem.HeaderOf(block)).rawPtr, block)
      ensures OnlyAt(old(mem.words), mem.words, iset{block})
      ensures Elsewhere(old(mem.slabs), mem.slabs, old(slabs), slabs)
    {
      var slab := mem.HeaderOf(block).rawPtr;
      MappedSlabs(State(), blockSize, mem.words, mem.slabs);
      if slab == NULL { return false; }
      ghost var c := State();
      DeallocateSettles(c, blockSize, slab, block);
      GiveTo(slab, block);
      var empty := IsEmpty(mem, slab, blockSize, FreeOf(State(), slab));
      if empty { ReleaseExtraEmptySlabsLocked(); }
      ok := true;
    }

    /** SizeClass::deallocate_batch on the chain at `head`, which reads each link before free_block
        overwrites that word. A block with a null raw_ptr is invalid_argument: the blocks before it are free,
        it and the rest are not, and no slab is released. */
    method DeallocateBatch(head: Addr, ghost batch: seq<Addr>) returns (ok: bool)
      requires Valid() && Chain(mem.words, head, batch)
      requires BatchOk(State(), blockSize, mem.Owners(), batch[..FirstOrphan(mem.Owners(), batch)])
      modifies this, mem`words, mem`slabs
      ensures Linkage() && ok == (FirstOrphan(mem.Owners(), batch) == |batch|)
      ensures forall b | b in batch[..FirstOrphan(mem.Owners(), batch)] :: Owner(mem.Owners(), b) in old(free)
      ensures ok ==> Valid() && State() == FreeBatch(old(State()), blockSize, mem.Owners(), batch[..FirstOrphan(mem.Owners(), batch)])
      ensures !ok ==> State() == PushAll(old(State()), mem.Owners(), batch[..FirstOrphan(mem.Owners(), batch)])
      ensures OnlyAt(old(mem.words), mem.words, Set(batch[..FirstOrphan(mem.Owners(), batch)]))
      ensures Elsewhere(old(mem.slabs), mem.slabs, old(slabs), slabs)
    {
      ghost var c, own := State(), mem.Owners();
      ghost var n := FirstOrphan(own, batch);
      MappedSlabs(c, blockSize, mem.words, mem.slabs);
      BatchStarts(c, blockSize, own, batch[..n]);
      if head == NULL { return true; }
      var saw;
      assert batch == batch[..n] + batch[n..];
      ok, saw := BatchLoop(head, batch[..n], batch[n..], batch);
      if !ok { return; }
      BatchEnds(c, blockSize, own, batch[..n], State(), saw);
      if saw { ReleaseExtraEmptySlabsLocked(); }
    }

    /** The loop of deallocate_batch on the blocks `pre` with owners, stopped by `orphans` if there are any: the
        next pointer is read before free_block reuses its word. */
    method BatchLoop(first: Addr, ghost pre: seq<Addr>, ghost orphans: seq<Addr>, ghost batch: seq<Addr>) returns (ok: bool, saw: bool)
      requires Linkage() && Chain(mem.words, first, batch) && batch == pre + orphans
      requires orphans != [] ==> Owner(mem.Owners(), orphans[0]) == NULL
      requires Batching(State(), pre, false) in Batches(State(), blockSize, mem.Owners(), pre)
      modifies this`free, mem`words, mem`slabs
      ensures Linkage() && ok == (orphans == [])
      ensures Batching(State(), [], saw) in Batches(old(State()), blockSize, mem.Owners(), pre)
      ensures Touched(mem.words, mem.slabs) in Touches(old(mem.words), old(mem.slabs), Set(pre), slabs)
    {
      ghost var c, own := State(), mem.Owners();
      MappedSlabs(c, blockSize, mem.words, mem.slabs);
      ChainNoDup(mem.words, first, batch);
      var head := first;
      ghost var todo, rest := pre, batch;
      saw := false;
      while head != NULL
        invariant Linkage() && Chain(mem.words, head, rest) && NoDup(rest) && rest == todo + orphans
        invariant Batching(State(), todo, saw) in Batches(c, blockSize, own, pre)
        invariant Touched(mem.words, mem.slabs) in Touches(old(mem.words), old(mem.slabs), Set(pre), slabs)
        decreases |rest|
      {
        var block := head;
        head := Load(mem.words, Link(block));
        var slab := mem.HeaderOf(block).rawPtr;
        HeadOrOrphan(c, blockSize, own, pre, State(), todo, saw, orphans, rest);
        assert slab == Owner(own, block);
        if slab == NULL { return false, saw; }
        ghost var w, s := mem.words, mem.slabs;
        var empty := FreeFromBatch(slab, block, head, c, own, pre, todo, saw, rest);
        TouchesThen(old(mem.words), old(mem.slabs), w, s, mem.words, mem.slabs, pre, block, slabs);
        saw := saw || empty;
        todo, rest := todo[1..], rest[1..];
      }
      ok := true;
    }

    /** slab->free_block(current) and slab->is_empty() for the head of what is left; `next` was read before. */
    method FreeFromBatch(slab: Addr, block: Addr, next: Addr, ghost c: ClassState, ghost own: map<Addr, Addr>, ghost pre: seq<Addr>,
                         ghost todo: seq<Addr>, ghost saw: bool, ghost rest: seq<Addr>) returns (empty: bool)
      requires Linkage() && todo != [] && block == todo[0] && slab == Owner(own, block)
      requires Outstanding(State(), blockSize, slab, block) && slab in free
      requires Batching(State(), todo, saw) in Batches(c, blockSize, own, pre)
      requires NoDup(rest) && rest != [] && rest[0] == block && Chain(mem.words, next, rest[1..])
      modifies this`free, mem`words, mem`slabs
      ensures Linkage() && Chain(mem.words, next, rest[1..])
      ensures Batching(State(), todo[1..], saw || empty) in Batches(c, blockSize, own, pre)
      ensures Touched(mem.words, mem.slabs) in Touches(old(mem.words), old(mem.slabs), iset{block}, slabs)
    {
      ghost var w := mem.words;
      BatchSteps(c, blockSize, own, pre, State(), todo, saw, Push(State(), slab, block));
      GiveTo(slab, block);
      BatchRest(w, mem.words, rest, next);
      empty := IsEmpty(mem, slab, blockSize, FreeOf(State(), slab));
    }

    /** SizeClass::release_extra_empty_slabs_locked. */
    method ReleaseExtraEmptySlabsLocked()
      requires Linkage()
      modifies this, mem`slabs
      ensures Valid() && State() == Release(old(State()), blockSize)
      ensures Elsewhere(old(mem.slabs), mem.slabs, old(slabs), slabs)
    {
      ghost var c := State();
      MappedSlabs(c, blockSize, mem.words, mem.slabs);
      ReleaseStarts(c, blockSize);
      var retained := ReleaseLoop();
      ReleaseEnds(c, blockSize, slabs, current, retained);
      ReleasedSound(c, blockSize, mem.words, mem.slabs, slabs);
      free := Restrict(free, slabs);
      if current != NULL && current !in slabs {
        assert false;
      }
      if retained != NULL {
        var usable := false;
        if current != NULL { usable := HasFree(mem, current, blockSize, FreeOf(c, current)); }
        if !usable { current := retained; }
      }
    }

    /** The loop over slabs_: the first empty slab is retained, each later one is swapped with the back,
        popped and unmapped. */
    method ReleaseLoop() returns (retained: Addr)
      requires Linkage() && Releasing(0, slabs, current, NULL) in Releases(State(), blockSize)
      modifies this`slabs, this`current, mem`slabs
      ensures Releasing(|slabs|, slabs, current, retained) in Releases(old(State()), blockSize)
      ensures Intact(old(State()).(slabs := slabs), blockSize, mem.words, mem.slabs)
      ensures Elsewhere(old(mem.slabs), mem.slabs, old(slabs), slabs)
    {
      ghost var c := State();
      MappedSlabs(c, blockSize, mem.words, mem.slabs);
      retained := NULL;
      var i := 0;
      while i < |slabs|
        invariant 0 <= i <= |slabs|
        invariant Releasing(i, slabs, current, retained) in Releases(c, blockSize)
        invariant Intact(c.(slabs := slabs), blockSize, mem.words, mem.slabs)
        invariant Elsewhere(old(mem.slabs), mem.slabs, c.slabs, slabs)
        decreases |slabs| - i
      {
        var slab := slabs[i];
        ReleaseSteps(c, blockSize, i, slabs, current, retained);
        IntactAt(c.(slabs := slabs), blockSize, mem.words, mem.slabs, slab);
        var empty := IsEmpty(mem, slab, blockSize, FreeOf(c.(slabs := slabs), slab));
        if !empty {
          i := i + 1;
        } else if retained == NULL {
          retained := slab;
          i := i + 1;
        } else {
          UnmapKeepsOthers(c, blockSize, mem.words, old(mem.slabs), mem.slabs, slabs, SwapPop(slabs, i), slab, i);
          DropSlab(i);
        }
      }
    }

    /** swap with the back, pop, unmap. */
    method DropSlab(i: nat)
      requires i < |slabs|
      modifies this`slabs, this`current, mem`slabs
      ensures slabs == SwapPop(old(slabs), i) && mem.slabs == old(mem.slabs) - {old(slabs)[i]}
      ensures current == if old(current) == old(slabs)[i] then NULL else old(current)
    {
      var slab := slabs[i];
      if current == slab { current := NULL; }
      slabs := slabs[i := slabs[|slabs| - 1]];
      slabs := slabs[..|slabs| - 1];
      mem.slabs := mem.slabs - {slab};
    }

    /** ~SizeClass: every slab is unmapped. */
    method Destroy()
      requires Linkage()
      modifies this, mem`slabs
      ensures State() == ClassState([], NULL, map[])
      ensures Elsewhere(old(mem.slabs), mem.slabs, old(slabs), [])
    {
      MappedSlabs(State(), blockSize, mem.words, mem.slabs);
      var i := 0;
      while i < |slabs|
        invariant 0 <= i <= |slabs| && slabs == old(slabs)
        invariant Elsewhere(old(mem.slabs), mem.slabs, slabs, slabs[i..])
      {
        NoDupSuffix(slabs, i);
        ElsewhereUnmap(old(mem.slabs), mem.slabs, slabs, slabs[i..], slabs[i], slabs[i + 1..]);
        mem.slabs := mem.slabs - {slabs[i]};
        i := i + 1;
      }
      slabs, current, free := [], NULL, map[];
    }
  }

  // ---- the release loop, step by step ----

  /** Where the release loop is: its index, slabs_, current_ and the slab retained so far. */
  datatype Releasing = Releasing(i: nat, slabs: seq<Addr>, current: Addr, retained: Addr)

  /** The loop states on the way from class state c. */
  ghost function Releases(c: ClassState, size: nat): iset<Releasing>
  {
    iset r | ReleaseInv(c, size, r)
  }

  ghost predicate ReleaseInv(c: ClassState, size: nat, r: Releasing)
  {
    && r.i <= |r.slabs| && NoDup(r.slabs) && (forall p | p in r.slabs :: p in c.slabs)
    && ReleaseFrom(r.slabs, c.free, size, r.i, r.retained != NULL) == Compact(c.slabs, c.free, size)
    && r.retained == (if FirstEmpty(c.slabs, c.free, size, 0) < r.i then Retained(c, size) else NULL)
    && (r.retained == NULL ==> r.slabs == c.slabs)
    && r.current == (if c.current in r.slabs then c.current else NULL)
  }

  lemma ReleaseStarts(c: ClassState, size: nat)
    requires Ok(c, size)
    ensures Releasing(0, c.slabs, c.current, NULL) in Releases(c, size)
  {
  }

  /** One turn of the loop: skip a slab that is not empty, retain the first empty one, drop any other. */
  lemma ReleaseSteps(c: ClassState, size: nat, i: nat, slabs: seq<Addr>, current: Addr, retained: Addr)
    requires Ok(c, size) && Releasing(i, slabs, current, retained) in Releases(c, size) && i < |slabs|
    ensures slabs[i] in c.slabs && slabs[i] in c.free && slabs[i] != NULL
    ensures !Empty(c.free, size, slabs[i]) ==> Releasing(i + 1, slabs, current, retained) in Releases(c, size)
    ensures Empty(c.free, size, slabs[i]) && retained == NULL ==>
              Releasing(i + 1, slabs, current, slabs[i]) in Releases(c, size)
    ensures Empty(c.free, size, slabs[i]) && retained != NULL ==>
              Releasing(i, SwapPop(slabs, i), if current == slabs[i] then NULL else current, retained) in Releases(c, size)
  {
    NotNull(c, size);
    if Empty(c.free, size, slabs[i]) && retained == NULL {
      FirstEmptyAt(c.slabs, c.free, size, 0, i);
    }
    if Empty(c.free, size, slabs[i]) && retained != NULL {
      SwapPopProperties(slabs, i);
    }
  }

  /** What the loop ends with, and that current_ is then null or a surviving slab. */
  lemma ReleaseEnds(c: ClassState, size: nat, slabs: seq<Addr>, current: Addr, retained: Addr)
    requires Ok(c, size) && Releasing(|slabs|, slabs, current, retained) in Releases(c, size)
    ensures slabs == Compact(c.slabs, c.free, size) && retained == Retained(c, size)
    ensures current == if c.current in slabs then c.current else NULL
    ensures current != NULL ==> current in slabs && current in c.slabs && FreeOf(Release(c, size), current) == FreeOf(c, current)
  {
    NotNull(c, size);
    CompactKeeps(c.slabs, c.free, size);
  }

  lemma ReleasedSound(c: ClassState, size: nat, w: map<Addr, Addr>, s: map<Addr, SlabHeader>, slabs: seq<Addr>)
    requires Ok(c, size) && slabs == Compact(c.slabs, c.free, size) && Intact(c.(slabs := slabs), size, w, s)
    ensures Picture(Release(c, size), w, s) in Settled(size)
    ensures forall p | p in slabs :: p in s && Linked(w, s[p], size, FreeOf(c, p))
  {
    ReleaseProperties(c, size);
    var d := Release(c, size);
    var e := c.(slabs := slabs);
    forall p | p in slabs
      ensures p in s && Linked(w, s[p], size, FreeOf(c, p)) && FreeOf(d, p) == FreeOf(c, p)
    {
      assert FreeOf(e, p) == FreeOf(c, p);
    }
  }

  lemma UnmapKeepsOthers(c: ClassState, size: nat, w: map<Addr, Addr>, s0: map<Addr, SlabHeader>, s: map<Addr, SlabHeader>,
                         was: seq<Addr>, slabs: seq<Addr>, p: Addr, i: nat)
    requires Intact(c.(slabs := was), size, w, s) && Elsewhere(s0, s, c.slabs, was) && p in was
    requires (forall q | q in was :: q in c.slabs) && NoDup(was)
    requires i < |was| && was[i] == p && slabs == SwapPop(was, i)
    ensures Intact(c.(slabs := slabs), size, w, s - {p}) && Elsewhere(s0, s - {p}, c.slabs, slabs)
  {
    SwapPopProperties(was, i);
    ElsewhereUnmap(s0, s, c.slabs, was, p, slabs);
    var d, e := c.(slabs := was), c.(slabs := slabs);
    forall q | q in slabs ensures q in s && q != p && Linked(w, s[q], size, FreeOf(e, q)) {
      assert FreeOf(d, q) == FreeOf(e, q);
    }
  }

  lemma NoDupSuffix(s: seq<Addr>, i: nat)
    requires NoDup(s) && i < |s|
    ensures forall q :: q in s[i + 1..] <==> q in s[i..] && q != s[i]
  {
    var rest := s[i + 1..];
    assert s[i..] == [s[i]] + rest;
    assert forall j | 0 <= j < |rest| :: rest[j] == s[i + 1 + j];
  }

  /** Slabs of the class are mapped, so a fresh mapping is apart from them. */
  lemma SlabsAreMapped(c: ClassState, size: nat, w: map<Addr, Addr>, slabs: map<Addr, SlabHeader>, os: Option<Addr>)
    requires Intact(c, size, w, slabs) && FreshMapping(slabs, os)
    ensures FreshBase(c, os)
  {
    forall p | p in c.slabs ensures p in slabs { assert FreeOf(c, p) == FreeOf(c, p); }
  }

  lemma SwitchCurrent(c: ClassState, size: nat, w: map<Addr, Addr>, slabs: map<Addr, SlabHeader>, p: Addr)
    requires Picture(c, w, slabs) in Sound(size) && p in c.slabs
    ensures Picture(c.(current := p), w, slabs) in Sound(size)
  {
    var d := c.(current := p);
    forall q | q in d.slabs ensures FreeOf(d, q) == FreeOf(c, q) {}
  }

  /** The payload of a block in use holds no link of a free block. */
  lemma PayloadIsPrivate(c: ClassState, size: nat, p: Addr, b: Addr, at: Addr)
    requires Ok(c, size) && Outstanding(c, size, p, b) && Link(b) <= at < b + Stride(size)
    ensures at >= HEADER && at - HEADER !in FreeSet(c)
  {
    if at - HEADER in FreeSet(c) {
      var x := at - HEADER;
      var q :| q in c.slabs && x in FreeOf(c, q);
      assert SlabOk(q, size, FreeOf(c, q)) && SlabOk(p, size, FreeOf(c, p));
      assert q != p ==> Apart(p, q);
      BlockBounds(p, size, b);
      BlockBounds(q, size, x);
      if q == p { BlocksApart(p, size, b, x); }
    }
  }

  /** deallocate leaves at most one empty slab. */
  lemma DeallocateSettles(c: ClassState, size: nat, p: Addr, b: Addr)
    requires Ok(c, size) && AtMostOneEmpty(c, size) && Outstanding(c, size, p, b)
    ensures p in c.free && AtMostOneEmpty(SizeClassSpec.Deallocate(c, size, p, b), size)
  {
    var own := map[b := p];
    FreeBatchProperties(c, size, own, [b]);
    DeallocateIsBatchOfOne(c, size, own, b);
  }

  // ---- the batch loop, step by step ----

  /** Where the batch loop is: the class so far, the blocks still to free, and whether a slab became empty. */
  datatype Batching = Batching(state: ClassState, rest: seq<Addr>, saw: bool)

  /** The loop states on the way from class state c with this batch. */
  ghost function Batches(c: ClassState, size: nat, own: map<Addr, Addr>, batch: seq<Addr>): iset<Batching>
  {
    iset f: Batching | BatchInv(c, size, own, batch, f)
  }

  ghost predicate BatchInv(c: ClassState, size: nat, own: map<Addr, Addr>, batch: seq<Addr>, f: Batching)
  {
    && Ok(f.state, size) && f.state.slabs == c.slabs && BatchOk(f.state, size, own, f.rest)
    && (forall b | b in f.rest :: b in batch && Owner(own, b) in f.state.free)
    && (forall b | b in batch :: Owner(own, b) in c.free)
    && PushAll(f.state, own, f.rest) == PushAll(c, own, batch)
    && (f.saw || SawEmpty(f.state, size, own, f.rest)) == SawEmpty(c, size, own, batch)
  }

  lemma BatchStarts(c: ClassState, size: nat, own: map<Addr, Addr>, batch: seq<Addr>)
    requires Ok(c, size) && BatchOk(c, size, own, batch)
    ensures Batching(c, batch, false) in Batches(c, size, own, batch)
    ensures forall b | b in batch :: Owner(own, b) in c.free
    ensures batch == [] ==> FreeBatch(c, size, own, batch) == c
  {
    forall b | b in batch ensures Owner(own, b) in c.free { assert Outstanding(c, size, Owner(own, b), b); }
  }

  lemma BatchHead(c: ClassState, size: nat, own: map<Addr, Addr>, batch: seq<Addr>, d: ClassState, rest: seq<Addr>, saw: bool)
    requires Batching(d, rest, saw) in Batches(c, size, own, batch) && rest != []
    ensures rest[0] in batch && NoDup(rest) && Outstanding(d, size, Owner(own, rest[0]), rest[0])
    ensures Owner(own, rest[0]) in d.free
  {
    assert Outstanding(d, size, Owner(own, rest[0]), rest[0]);
  }

  lemma BatchSteps(c: ClassState, size: nat, own: map<Addr, Addr>, batch: seq<Addr>, d: ClassState, rest: seq<Addr>, saw: bool, e: ClassState)
    requires Batching(d, rest, saw) in Batches(c, size, own, batch) && rest != []
    requires Owner(own, rest[0]) in d.free && e == Push(d, Owner(own, rest[0]), rest[0])
    ensures Batching(e, rest[1..], saw || Empty(e.free, size, Owner(own, rest[0]))) in Batches(c, size, own, batch)
  {
    assert Outstanding(d, size, Owner(own, rest[0]), rest[0]);
    BatchTail(d, size, own, rest);
    PushProperties(d, size, Owner(own, rest[0]), rest[0]);
    BatchUnfolds(d, size, own, rest);
  }

  lemma BatchUnfolds(d: ClassState, size: nat, own: map<Addr, Addr>, rest: seq<Addr>)
    requires rest != [] && forall b | b in rest :: Owner(own, b) in d.free
    ensures var e := Push(d, Owner(own, rest[0]), rest[0]);
      && (forall b | b in rest[1..] :: b in rest && Owner(own, b) in e.free)
      && PushAll(d, own, rest) == PushAll(e, own, rest[1..])
      && SawEmpty(d, size, own, rest) == (Empty(e.free, size, Owner(own, rest[0])) || SawEmpty(e, size, own, rest[1..]))
  {
  }

  lemma BatchEnds(c: ClassState, size: nat, own: map<Addr, Addr>, batch: seq<Addr>, d: ClassState, saw: bool)
    requires Ok(c, size) && AtMostOneEmpty(c, size) && BatchOk(c, size, own, batch)
    requires Batching(d, [], saw) in Batches(c, size, own, batch)
    ensures forall b | b in batch :: Owner(own, b) in c.free
    ensures FreeBatch(c, size, own, batch) == if saw then Release(d, size) else d
    ensures AtMostOneEmpty(FreeBatch(c, size, own, batch), size)
  {
    FreeBatchProperties(c, size, own, batch);
  }

  lemma OnlyAtThen(w0: map<Addr, Addr>, w1: map<Addr, Addr>, w2: map<Addr, Addr>, blocks: iset<Addr>, b: Addr)
    requires OnlyAt(w0, w1, blocks) && OnlyAt(w1, w2, iset{b}) && b in blocks
    ensures OnlyAt(w0, w2, blocks)
  {
    forall c: Addr | c !in blocks ensures Load(w2, Link(c)) == Load(w0, Link(c)) {
      assert Load(w1, Link(c)) == Load(w0, Link(c));
    }
  }

  /** The next block of the chain has an owner exactly when it is one of those to free. */
  lemma HeadOrOrphan(c: ClassState, size: nat, own: map<Addr, Addr>, pre: seq<Addr>, d: ClassState, todo: seq<Addr>, saw: bool,
                     orphans: seq<Addr>, rest: seq<Addr>)
    requires Batching(d, todo, saw) in Batches(c, size, own, pre)
    requires rest == todo + orphans && rest != [] && NoDup(rest) && (orphans != [] ==> Owner(own, orphans[0]) == NULL)
    ensures Owner(own, rest[0]) == NULL <==> todo == []
    ensures todo != [] ==>
      && todo[0] in pre && Outstanding(d, size, Owner(own, todo[0]), todo[0]) && Owner(own, todo[0]) in d.free
      && rest[0] == todo[0] && rest[1..] == todo[1..] + orphans && NoDup(rest[1..])
  {
    if todo != [] {
      BatchHead(c, size, own, pre, d, todo, saw);
      NotNull(d, size);
      NoDupTail(rest);
    }
  }

  /** Overwriting the freed block's link does not disturb the rest of the batch. */
  lemma BatchRest(w: map<Addr, Addr>, w': map<Addr, Addr>, rest: seq<Addr>, next: Addr)
    requires rest != [] && NoDup(rest) && Chain(w, next, rest[1..]) && OnlyAt(w, w', iset{rest[0]})
    ensures Chain(w', next, rest[1..])
  {
    NoDupTail(rest);
    forall b | b in rest[1..] ensures Load(w', Link(b)) == Load(w, Link(b)) { assert b in Elems(rest[1..]); }
    ChainFrame(w, w', next, rest[1..]);
  }
}
