/** Slab and SizeClass with the state the program has: slab headers, block headers, and free lists threaded
    through the same payload words that users write. */
module SlabHeap {
  import opened Arithmetic
  import opened Lists
  import opened Layout
  import opened SizeClassSpec

  datatype BlockHeader = BlockHeader(nodeId: nat, sizeClass: nat, size: nat, rawPtr: Addr, totalSize: nat)
  datatype SlabHeader = SlabHeader(nodeId: nat, blockSize: nat, capacity: nat, freeCount: nat, freeList: Addr)

  function RawPtrs(headers: map<Addr, BlockHeader>): map<Addr, Addr>
  {
    map b | b in headers :: headers[b].rawPtr
  }

  /** `slabs` has the headers of the slabs that are mapped; touching an unmapped slab is an error. */
  class Memory {
    var words: map<Addr, Addr>
    var headers: map<Addr, BlockHeader>
    var slabs: map<Addr, SlabHeader>

    constructor ()
      ensures words == map[] && headers == map[] && slabs == map[]
    {
      words, headers, slabs := map[], map[], map[];
    }

    /** A header that was never written reads as zeros. */
    function HeaderOf(b: Addr): BlockHeader
      reads this
    {
      if b in headers then headers[b] else BlockHeader(0, 0, 0, NULL, 0)
    }

    /** raw_ptr of every block header. */
    ghost function Owners(): map<Addr, Addr>
      reads this
    {
      RawPtrs(headers)
    }
  }

  // ---- what memory says about free lists ----

  /** A slab header describes the free list `list`. */
  ghost predicate Linked(words: map<Addr, Addr>, h: SlabHeader, size: nat, list: seq<Addr>)
  {
    h.blockSize == size && h.capacity == Capacity(size) && h.freeCount == |list| && Chain(words, h.freeList, list)
  }

  /** Memory holds the free lists of class state c. */
  ghost predicate Intact(c: ClassState, size: nat, words: map<Addr, Addr>, slabs: map<Addr, SlabHeader>)
  {
    forall p {:trigger FreeOf(c, p)} | p in c.slabs :: p in slabs && Linked(words, slabs[p], size, FreeOf(c, p))
  }

  lemma LinkedFrame(w: map<Addr, Addr>, w': map<Addr, Addr>, h: SlabHeader, size: nat, list: seq<Addr>, blocks: iset<Addr>)
    requires Linked(w, h, size, list) && OnlyAt(w, w', blocks) && forall b | b in list :: b !in blocks
    ensures Linked(w', h, size, list)
  {
    ChainFrame(w, w', h.freeList, list);
  }

  /** Writing links of blocks that are not free, and headers of other slabs, leaves every free list alone. */
  lemma IntactFrame(c: ClassState, size: nat, w: map<Addr, Addr>, w': map<Addr, Addr>,
                    slabs: map<Addr, SlabHeader>, slabs': map<Addr, SlabHeader>, blocks: iset<Addr>)
    requires Intact(c, size, w, slabs) && OnlyAt(w, w', blocks)
    requires forall b | b in FreeSet(c) :: b !in blocks
    requires forall p | p in c.slabs && p in slabs :: p in slabs' && slabs'[p] == slabs[p]
    ensures Intact(c, size, w', slabs')
  {
    forall p | p in c.slabs ensures p in slabs' && Linked(w', slabs'[p], size, FreeOf(c, p)) {
      assert FreeOf(c, p) == FreeOf(c, p) && p in slabs;
      forall b | b in FreeOf(c, p) ensures b !in blocks { assert b in FreeSet(c); }
      LinkedFrame(w, w', slabs[p], size, FreeOf(c, p), blocks);
    }
  }

  /** Popping slab p's list in memory is Pop on the class state. */
  lemma IntactPop(c: ClassState, size: nat, w: map<Addr, Addr>, slabs: map<Addr, SlabHeader>, p: Addr, h: SlabHeader)
    requires Intact(c, size, w, slabs) && p in c.slabs && FreeOf(c, p) != []
    requires Linked(w, h, size, FreeOf(c, p)[1..])
    ensures Intact(Pop(c, p).state, size, w, slabs[p := h])
  {
    var d := Pop(c, p).state;
    forall q | q in d.slabs ensures q in slabs[p := h] && Linked(w, slabs[p := h][q], size, FreeOf(d, q)) {
      if q != p { assert FreeOf(d, q) == FreeOf(c, q); }
    }
  }

  /** Pushing onto slab p's list in memory is Push on the class state. */
  lemma IntactPush(c: ClassState, size: nat, w: map<Addr, Addr>, w': map<Addr, Addr>,
                   slabs: map<Addr, SlabHeader>, p: Addr, b: Addr, h: SlabHeader)
    requires Ok(c, size) && Intact(c, size, w, slabs) && Outstanding(c, size, p, b)
    requires OnlyAt(w, w', iset{b}) && Linked(w', h, size, [b] + FreeOf(c, p))
    ensures p in c.free && Intact(Push(c, p, b), size, w', slabs[p := h])
  {
    FreeBlockOwner(c, size, p, b);
    IntactFrame(c, size, w, w', slabs, slabs, iset{b});
    var d := Push(c, p, b);
    forall q | q in d.slabs ensures q in slabs[p := h] && Linked(w', slabs[p := h][q], size, FreeOf(d, q)) {
      if q != p { assert FreeOf(d, q) == FreeOf(c, q); }
    }
  }

  /** Mapping and initialising a slab apart from the others adds its list and disturbs none. */
  lemma IntactAddSlab(c: ClassState, size: nat, w: map<Addr, Addr>, w': map<Addr, Addr>,
                      slabs: map<Addr, SlabHeader>, p: Addr, h: SlabHeader)
    requires Ok(c, size) && Intact(c, size, w, slabs) && FreshBase(c, Some(p))
    requires OnlyAt(w, w', BlocksOf(p, size)) && Linked(w', h, size, InitList(p, size, Capacity(size)))
    ensures Intact(AddSlab(c, size, p), size, w', slabs[p := h])
  {
    forall b | b in FreeSet(c) ensures b !in BlocksOf(p, size) {
      if IsBlock(p, size, b) {
        var q :| q in c.slabs && b in FreeOf(c, q);
        assert SlabOk(q, size, FreeOf(c, q));
        OwnerUnique(p, q, size, size, b);
      }
    }
    AddSlabProperties(c, size, p);
    IntactFrame(c, size, w, w', slabs, slabs[p := h], BlocksOf(p, size));
    var d := AddSlab(c, size, p);
    forall q | q in d.slabs ensures q in slabs[p := h] && Linked(w', slabs[p := h][q], size, FreeOf(d, q)) {
      if q != p { assert q in c.slabs && FreeOf(d, q) == FreeOf(c, q); }
    }
  }

  // ---- Slab ----

  /** Slab::has_free. */
  method HasFree(m: Memory, slab: Addr, ghost size: nat, ghost list: seq<Addr>) returns (r: bool)
    requires slab in m.slabs && Linked(m.words, m.slabs[slab], size, list)
    ensures r <==> list != []
  {
    r := m.slabs[slab].freeCount > 0;
  }

  /** Slab::is_empty. */
  method IsEmpty(m: Memory, slab: Addr, ghost size: nat, ghost list: seq<Addr>) returns (r: bool)
    requires slab in m.slabs && Linked(m.words, m.slabs[slab], size, list)
    ensures r <==> |list| == Capacity(size)
  {
    r := m.slabs[slab].freeCount == m.slabs[slab].capacity;
  }

  /** Slab::allocate_block: the head of the free list, with raw_ptr and total_size written to its header;
      null when the list is empty. */
  method AllocateBlock(m: Memory, slab: Addr, ghost size: nat, ghost list: seq<Addr>) returns (block: Addr)
    requires slab in m.slabs && Linked(m.words, m.slabs[slab], size, list)
    modifies m`headers, m`slabs
    ensures block == Head(list)
    ensures list == [] ==> m.headers == old(m.headers) && m.slabs == old(m.slabs)
    ensures list != [] ==>
              && slab in m.slabs && m.slabs == old(m.slabs)[slab := m.slabs[slab]]
              && Linked(m.words, m.slabs[slab], size, list[1..])
              && m.headers == old(m.headers)[block := old(m.HeaderOf(block)).(rawPtr := slab, totalSize := SLAB_SIZE)]
  {
    var header := m.slabs[slab];
    if header.freeList == NULL { return NULL; }
    block := header.freeList;
    m.headers := m.headers[block := m.HeaderOf(block).(rawPtr := slab, totalSize := SLAB_SIZE)];
    m.slabs := m.slabs[slab := header.(freeList := Load(m.words, Link(block)), freeCount := header.freeCount - 1)];
  }

  /** Slab::free_block: the payload word becomes the link, the block the new head. */
  method FreeBlock(m: Memory, slab: Addr, block: Addr, ghost size: nat, ghost list: seq<Addr>)
    requires slab in m.slabs && Linked(m.words, m.slabs[slab], size, list)
    requires block != NULL && block !in list
    modifies m`words, m`slabs
    ensures slab in m.slabs && m.slabs == old(m.slabs)[slab := m.slabs[slab]]
    ensures Linked(m.words, m.slabs[slab], size, [block] + list)
    ensures OnlyAt(old(m.words), m.words, iset{block})
  {
    var header := m.slabs[slab];
    ChainPush(m.words, block, header.freeList, list);
    m.words := m.words[Link(block) := header.freeList];
    m.slabs := m.slabs[slab := header.(freeList := block, freeCount := header.freeCount + 1)];
  }

  /** Slab::init on a fresh mapping: every block of the slab is linked, exactly once. */
  method InitSlab(m: Memory, slab: Addr, size: nat, node: nat)
    requires IsBase(slab)
    modifies m`words, m`slabs
    ensures slab in m.slabs && m.slabs == old(m.slabs)[slab := m.slabs[slab]] && m.slabs[slab].nodeId == node
    ensures Linked(m.words, m.slabs[slab], size, InitList(slab, size, Capacity(size)))
    ensures OnlyAt(old(m.words), m.words, BlocksOf(slab, size))
  {
    FirstBlockOffset(slab);
    var first := AlignUp(slab + SLAB_HEADER, ALIGNMENT);
    var usable := SLAB_SIZE - (first - slab);
    var total := AlignUp(HEADER + Max(size, LINK_SIZE), ALIGNMENT);
    var capacity := usable / total;
    assert capacity == Capacity(size);
    var freeList: Addr := NULL;
    var i := 0;
    while i < capacity
      invariant 0 <= i <= capacity == Capacity(size)
      invariant Chain(m.words, freeList, InitList(slab, size, i))
      invariant OnlyAt(old(m.words), m.words, BlocksOf(slab, size))
      invariant m.slabs == old(m.slabs)
    {
      var block := first + i * total;
      assert block == BlockAt(slab, size, i);
      InitListStep(slab, size, i);
      ChainPush(m.words, block, freeList, InitList(slab, size, i));
      OnlyAtWrite(old(m.words), m.words, BlocksOf(slab, size), block, freeList);
      m.words := m.words[Link(block) := freeList];
      freeList := block;
      i := i + 1;
    }
    InitListProperties(slab, size, capacity);
    m.slabs := m.slabs[slab := SlabHeader(node, size, capacity, capacity, freeList)];
  }

  lemma InitListStep(p: Addr, size: nat, i: nat)
    requires IsBase(p) && i < Capacity(size)
    ensures BlockAt(p, size, i) != NULL && BlockAt(p, size, i) !in InitList(p, size, i)
    ensures IsBlock(p, size, BlockAt(p, size, i))
    ensures InitList(p, size, i + 1) == [BlockAt(p, size, i)] + InitList(p, size, i)
  {
    InitListProperties(p, size, i + 1);
    BlockInside(p, size, i);
    var list := InitList(p, size, i + 1);
    assert list[1..] == InitList(p, size, i) && list[0] == BlockAt(p, size, i);
  }
}
