/** One size class of a NumaArena: its SizeClass, its foreign bin, and the arena's foreign byte counter.
    Operations do not overlap here; Protocol.dfy has the interleavings. */
module ForeignBins {
  import opened Arithmetic
  import opened Lists
  import opened Layout
  import opened SizeClassSpec
  import opened ForeignSpec
  import opened SlabHeap
  import opened SizeClassHeap
  import T = SizeClassTable

  datatype ForeignBatch = ForeignBatch(head: Addr, count: nat, bytes: nat)

  ghost predicate BatchLinked(words: map<Addr, Addr>, batch: ForeignBatch, size: nat, list: seq<Addr>)
  {
    Chain(words, batch.head, list) && batch.count == |list| && batch.bytes == |list| * size
  }

  /** A list in memory together with the class whose blocks it holds. */
  datatype HeldList = HeldList(words: map<Addr, Addr>, bin: ForeignBatch, list: seq<Addr>, c: ClassState, own: map<Addr, Addr>)

  ghost function Held(size: nat): iset<HeldList>
  {
    iset h: HeldList | BatchLinked(h.words, h.bin, size, h.list) && BatchOk(h.c, size, h.own, h.list)
  }

  // ---- what allocate finds ----

  datatype Found = Found(taken: Taken, bin: seq<Addr>)

  /** The slow path's result, and the bin it leaves. */
  ghost function Finds(size: nat, c: ClassState, own: map<Addr, Addr>, list: seq<Addr>, os: Option<Addr>): iset<Found>
    requires Capacity(size) > 0
  {
    iset f: Found | IsFound(size, c, own, list, os, f)
  }

  ghost predicate IsFound(size: nat, c: ClassState, own: map<Addr, Addr>, list: seq<Addr>, os: Option<Addr>, f: Found)
    requires Capacity(size) > 0
  {
    && (forall b | b in list :: Owner(own, b) in c.free)
    && f.taken == ThreeStage(c, size, own, list, os)
    && f.bin == if AllocateExisting(c).block == NULL then [] else list
  }

  // ---- what users hold ----

  /** A class, its bin and memory, as they concern users. */
  datatype View = View(c: ClassState, bin: seq<Addr>, words: map<Addr, Addr>, headers: map<Addr, BlockHeader>)

  /** Users hold the outstanding blocks that no foreign bin holds. */
  ghost function Users(size: nat, v: View): iset<Addr>
  {
    iset b | Outstanding(v.c, size, Owner(RawPtrs(v.headers), b), b) && b !in v.bin
  }

  /** payload_size: what a user of a block of this class may write. */
  function Room(size: nat): nat { Max(size, LINK_SIZE) }

  /** Every block that users hold before and after has its payload and its header as before, and nothing is
      written but links and headers of the class's own blocks. */
  ghost predicate Untouched(size: nat, v: View, v': View)
  {
    && (forall b | b in Users(size, v) && b in Users(size, v') ::
          PayloadKept(v.words, v'.words, b, Room(size)) && b in v.headers && b in v'.headers && v'.headers[b] == v.headers[b])
    && OnlyAt(v.words, v'.words, Mine(size, v, v'))
    && HeadersOnlyAt(v.headers, v'.headers, Mine(size, v, v'))
  }

  /** The blocks of the slabs the class has before or after. */
  ghost function Mine(size: nat, v: View, v': View): iset<Addr>
  {
    iset b | OfSlabs(v.c.slabs, size, b) || OfSlabs(v'.c.slabs, size, b)
  }

  ghost predicate OfSlabs(slabs: seq<Addr>, size: nat, b: Addr)
  {
    exists p {:trigger IsBlock(p, size, b)} :: p in slabs && IsBlock(p, size, b)
  }

  ghost predicate HeadersOnlyAt(h: map<Addr, BlockHeader>, h': map<Addr, BlockHeader>, blocks: iset<Addr>)
  {
    forall b | b !in blocks :: (b in h' <==> b in h) && (b in h ==> h'[b] == h[b])
  }

  ghost function UsersKeep(size: nat, v: View): iset<View>
  {
    iset v': View | Users(size, v') == Users(size, v) && Untouched(size, v, v')
  }

  ghost function UsersGain(size: nat, v: View, b: Addr): iset<View>
  {
    iset v': View | b !in Users(size, v) && Users(size, v') == Users(size, v) + iset{b} && Untouched(size, v, v')
  }

  ghost function UsersLose(size: nat, v: View, b: Addr): iset<View>
  {
    iset v': View | b in Users(size, v) && Users(size, v') == Users(size, v) - iset{b} && Untouched(size, v, v')
  }

  /** The blocks of a slab that was mapped at os. */
  ghost function NewBlocks(os: Option<Addr>, size: nat, slabs: seq<Addr>): iset<Addr>
  {
    if os.Some? && os.value in slabs then BlocksOf(os.value, size) else iset{}
  }

  /** foreign_bytes_, which all bins of an arena share. */
  class Counter {
    var bytes: nat

    constructor ()
      ensures bytes == 0
    {
      bytes := 0;
    }
  }

  /** A class, its bin and the counter after an enqueue. */
  datatype Spill = Spill(c: ClassState, bin: seq<Addr>, known: int)

  /** One class with its bin, as a value. */
  datatype Part = Part(size: nat, c: ClassState, bin: ForeignBatch, list: seq<Addr>)

  class ArenaClass {
    const table: T.Config
    const classSize: nat
    const nodeId: nat
    const foreignFreelistEnabled: bool
    const small: SizeClass
    const mem: Memory

    // the ForeignBin
    var head: Addr
    var count: nat
    var bytes: nat
    const counter: Counter

    ghost var bin: seq<Addr>

    constructor (table: T.Config, classSize: nat, nodeId: nat, foreignFreelistEnabled: bool, mem: Memory, counter: Counter)
      requires T.Wf(table) && 1 <= classSize <= table.t3 && Capacity(classSize) > 0
      ensures Valid() && bin == [] && small.State() == ClassState([], NULL, map[])
      ensures this.classSize == classSize && this.nodeId == nodeId && this.mem == mem && fresh(small)
      ensures this.foreignFreelistEnabled == foreignFreelistEnabled && this.counter == counter
    {
      this.table, this.classSize, this.nodeId := table, classSize, nodeId;
      this.foreignFreelistEnabled, this.mem, this.counter := foreignFreelistEnabled, mem, counter;
      small := new SizeClass(classSize, nodeId, mem);
      head, count, bytes := NULL, 0, 0;
      bin := [];
    }

    function High(): nat { T.MaxCachedBytes(table, classSize) }
    function Low(): nat { T.LowWatermark(table, classSize) }

    ghost predicate Fitted()
    {
      T.Wf(table) && 1 <= classSize <= table.t3 && small.mem == mem && small.blockSize == classSize
    }

    ghost function Bin(): ForeignBatch
      reads this
    {
      ForeignBatch(head, count, bytes)
    }

    ghost function AsPart(): Part
      reads this, small
    {
      Part(classSize, small.State(), Bin(), bin)
    }

    /** The bin's list is linked in memory, its totals are right, and all of it is outstanding blocks. */
    ghost predicate BinOk()
      reads this, small, mem
    {
      HeldList(mem.words, Bin(), bin, small.State(), mem.Owners()) in Held(classSize)
    }

    ghost predicate Valid()
      reads this, small, mem, counter
    {
      && Fitted() && small.Valid() && BinOk()
      && counter.bytes >= bytes && bytes <= High() && (!foreignFreelistEnabled ==> bin == [])
    }

    /** What the arena's other bins have in the counter. */
    ghost function Others(): int
      reads this, counter
    {
      counter.bytes - bytes
    }

    /** NumaArena::detach_all_foreign_locked. */
    method DetachAllForeign() returns (batch: ForeignBatch)
      modifies `head, `count, `bytes, `bin
      ensures batch == old(Bin()) && bin == [] && Bin() == ForeignBatch(NULL, 0, 0)
    {
      batch := ForeignBatch(head, count, bytes);
      head, count, bytes := NULL, 0, 0;
      bin := [];
    }

    /** NumaArena::detach_foreign_until_low_locked: the head prefix, reversed, down to the low watermark. */
    method DetachForeignUntilLow(low: nat) returns (batch: ForeignBatch, ghost n: nat)
      requires BatchLinked(mem.words, Bin(), classSize, bin) && NoDup(bin)
      modifies `head, `count, `bytes, `bin, mem`words
      ensures n == DetachCount(|old(bin)|, old(bytes), classSize, low) && bin == old(bin)[n..]
      ensures BatchLinked(mem.words, batch, classSize, Reverse(old(bin)[..n]))
      ensures BatchLinked(mem.words, Bin(), classSize, bin)
      ensures OnlyAt(old(mem.words), mem.words, Set(old(bin)))
    {
      ghost var list := bin;
      batch := ForeignBatch(NULL, 0, 0);
      n := 0;
      assert list[0..] == list;
      while head != NULL && bytes > low
        invariant Detaching(n, mem.words, Bin(), batch) in Detaches(old(mem.words), list, classSize, low)
        decreases |list| - n
      {
        DetachStep(old(mem.words), list, classSize, low, n, mem.words, Bin(), batch);
        var header := head;
        head := Load(mem.words, Link(header));
        mem.words := mem.words[Link(header) := batch.head];
        batch := ForeignBatch(header, batch.count + 1, batch.bytes + classSize);
        count, bytes := count - 1, bytes - classSize;
        n := n + 1;
      }
      DetachEnds(old(mem.words), list, classSize, low, n, mem.words, Bin(), batch);
      bin := list[n..];
    }

    /** NumaArena::drain_foreign_batch. */
    method DrainForeignBatch(batch: ForeignBatch, ghost list: seq<Addr>)
      requires Fitted() && small.Valid() && BinOk() && BatchLinked(mem.words, batch, classSize, list)
      requires BatchOk(small.State(), classSize, mem.Owners(), list) && Set(list) !! Set(bin)
      modifies small, mem`words, mem`slabs
      ensures small.Valid() && BinOk()
      ensures forall b | b in list :: Owner(mem.Owners(), b) in old(small.free)
      ensures small.State() == FreeBatch(old(small.State()), classSize, mem.Owners(), list)
      ensures Elsewhere(old(mem.slabs), mem.slabs, old(small.slabs), small.slabs)
      ensures OnlyAt(old(mem.words), mem.words, Set(list))
    {
      ghost var c, own, w := small.State(), mem.Owners(), mem.words;
      MappedSlabs(c, classSize, mem.words, mem.slabs);
      BatchStarts(c, classSize, own, list);
      if batch.head == NULL { return; }
      NoOrphans(c, classSize, own, list);
      var ok := small.DeallocateBatch(batch.head, list);
      HeldSurvives(c, classSize, own, list, bin);
      ChainFrame(w, mem.words, head, bin);
    }

    /** NumaArena::drain_foreign_bin, and one turn of drain_all_foreign. */
    method DrainForeignBin()
      requires Valid()
      modifies this, small, counter, mem`words, mem`slabs
      ensures Valid() && bin == []
      ensures Others() == old(Others())
      ensures forall b | b in old(bin) :: Owner(mem.Owners(), b) in old(small.free)
      ensures small.State() == FreeBatch(old(small.State()), classSize, mem.Owners(), old(bin))
      ensures Elsewhere(old(mem.slabs), mem.slabs, old(small.slabs), small.slabs)
      ensures OnlyAt(old(mem.words), mem.words, Set(old(bin)))
    {
      ghost var list := bin;
      var batch := DetachAllForeign();
      if batch.bytes != 0 { counter.bytes := counter.bytes - batch.bytes; }
      DrainForeignBatch(batch, list);
    }

    /** NumaArena::enqueue_foreign_small: while the bin fits under the class's cap the block just joins it. Past
        the cap the head prefix is freed in one batch, newest last, and the bin is left within one block of half
        the cap. The counter follows the bin. */
    method EnqueueForeignSmall(header: Addr)
      requires Valid() && foreignFreelistEnabled && mem.HeaderOf(header).sizeClass == classSize
      requires Outstanding(small.State(), classSize, mem.HeaderOf(header).rawPtr, header) && header !in bin
      modifies this, small, counter, mem`words, mem`slabs
      ensures Valid()
      ensures Others() == old(Others())
      ensures forall b | b in [header] + old(bin) :: Owner(mem.Owners(), b) in old(small.free)
      ensures Enqueued(old(small.State()), mem.Owners(), [header] + old(bin), small.State(), bin)
      ensures (|old(bin)| + 1) * classSize <= T.MaxCachedBytes(table, classSize) ==>
                bin == [header] + old(bin) && small.State() == old(small.State()) && counter.bytes == old(counter.bytes) + classSize
      ensures (|old(bin)| + 1) * classSize > T.MaxCachedBytes(table, classSize) ==>
                Spill(small.State(), bin, counter.bytes) in Spills(old(small.State()), mem.Owners(), [header] + old(bin), old(counter.bytes) + classSize)
      ensures OnlyAt(old(mem.words), mem.words, Set([header] + old(bin)))
    {
      ghost var w := mem.words;
      LinkIntoBin(header);
      ghost var list, w1 := bin, mem.words;
      SettleOverflow();
      OnlyAtTwice(w, w1, mem.words, Set(list));
    }

    /** The overflow check of enqueue_foreign_small and what follows it outside the lock. */
    method SettleOverflow()
      requires Fitted() && small.Valid() && BinOk() && counter.bytes >= bytes
      requires forall b | b in FreeSet(small.State()) :: b !in bin
      modifies this, small, counter, mem`words, mem`slabs
      ensures small.Valid() && BinOk() && counter.bytes >= bytes && bytes <= High()
      ensures Others() == old(Others())
      ensures forall b | b in old(bin) :: Owner(mem.Owners(), b) in old(small.free)
      ensures Enqueued(old(small.State()), mem.Owners(), old(bin), small.State(), bin)
      ensures |old(bin)| * classSize <= T.MaxCachedBytes(table, classSize) ==>
                Spill(small.State(), bin, counter.bytes) == Spill(old(small.State()), old(bin), old(counter.bytes))
      ensures |old(bin)| * classSize > T.MaxCachedBytes(table, classSize) ==>
                Spill(small.State(), bin, counter.bytes) in Spills(old(small.State()), mem.Owners(), old(bin), old(counter.bytes))
      ensures OnlyAt(old(mem.words), mem.words, Set(old(bin)))
    {
      ghost var list, c, own, w, known := bin, small.State(), mem.Owners(), mem.words, counter.bytes;
      var batch, n := DetachOverflow();
      ghost var w1 := mem.words;
      SplitHeld(c, classSize, own, list, n);
      if batch.bytes != 0 { counter.bytes := counter.bytes - batch.bytes; }
      DrainForeignBatch(batch, Reverse(list[..n]));
      OnlyAtTwice(w, w1, mem.words, Set(list));
      EnqueuedExactly(c, own, list, known, Spill(small.State(), bin, counter.bytes));
    }

    /** The block goes to the front of the bin and is counted. */
    method LinkIntoBin(header: Addr)
      requires Valid() && Outstanding(small.State(), classSize, mem.HeaderOf(header).rawPtr, header) && header !in bin
      modifies `head, `count, `bytes, `bin, counter, mem`words
      ensures small.Valid() && BinOk() && bin == [header] + old(bin) && counter.bytes >= bytes
      ensures Others() == old(Others()) && counter.bytes == old(counter.bytes) + classSize
      ensures forall b | b in FreeSet(small.State()) :: b !in bin
      ensures small.State() == old(small.State()) && OnlyAt(old(mem.words), mem.words, Set(bin))
    {
      ghost var list := [header] + bin;
      ghost var c, own := small.State(), mem.Owners();
      JoinHeld(c, classSize, own, header, bin);
      LinkFront(mem.words, header, Bin(), classSize, bin);
      SettledFrame(c, classSize, mem.words, mem.words[Link(header) := head], mem.slabs, list);
      mem.words := mem.words[Link(header) := head];
      head, count, bytes := header, count + 1, bytes + classSize;
      counter.bytes := counter.bytes + classSize;
      bin := list;
    }

    /** The overflow check: nothing, or the prefix above the low watermark, leaves the bin. */
    method DetachOverflow() returns (batch: ForeignBatch, ghost n: nat)
      requires Fitted() && small.Valid() && BatchLinked(mem.words, Bin(), classSize, bin)
      requires NoDup(bin) && forall b | b in FreeSet(small.State()) :: b !in bin
      modifies `head, `count, `bytes, `bin, mem`words
      ensures small.Valid() && n <= |old(bin)| && bin == old(bin)[n..]
      ensures BatchLinked(mem.words, batch, classSize, Reverse(old(bin)[..n]))
      ensures BatchLinked(mem.words, Bin(), classSize, bin) && bytes == old(bytes) - batch.bytes
      ensures n == Overflow(|old(bin)|)
      ensures old(bytes) > High() ==> Low() - classSize < bytes <= Low()
      ensures bytes <= High() && OnlyAt(old(mem.words), mem.words, Set(old(bin)))
    {
      ghost var list, w := bin, mem.words;
      batch := ForeignBatch(NULL, 0, 0);
      n := 0;
      assert list[0..] == list && list[..0] == [];
      T.WatermarksFitClass(table, classSize);
      if bytes > High() {
        DetachCountTight(|list|, bytes, classSize, Low());
        batch, n := DetachForeignUntilLow(Low());
        SettledFrame(small.State(), classSize, w, mem.words, mem.slabs, list);
      }
    }

    /** How many of `count` enqueued blocks the overflow check takes off again. */
    function Overflow(count: nat): (n: nat)
      ensures n <= count
    {
      if count * classSize <= High() then 0 else DetachCount(count, count * classSize, classSize, Low())
    }

    /** What enqueueing leaves: the bin `list` with its overflow freed in one batch, newest first. */
    ghost predicate Enqueued(c: ClassState, own: map<Addr, Addr>, list: seq<Addr>, c': ClassState, bin': seq<Addr>)
    {
      var n := Overflow(|list|);
      && bin' == list[n..] && (forall b | b in Reverse(list[..n]) :: Owner(own, b) in c.free)
      && c' == FreeBatch(c, classSize, own, Reverse(list[..n]))
      && (|list| * classSize > High() ==> Low() - classSize < |bin'| * classSize <= Low())
    }

    /** What the bin `list` comes to once it has grown past its cap: a head prefix, at least one block and no more
        than it takes to reach half the cap, is off it, freed in one batch and off the counter. */
    ghost function Spills(c: ClassState, own: map<Addr, Addr>, list: seq<Addr>, known: int): iset<Spill>
    {
      iset s: Spill | Spilled(c, own, list, known, s)
    }

    ghost predicate Spilled(c: ClassState, own: map<Addr, Addr>, list: seq<Addr>, known: int, s: Spill)
    {
      var n := |list| - |s.bin|;
      && 0 < n <= |list| && s.bin == list[n..]
      && T.MaxCachedBytes(table, classSize) / 2 - classSize < |s.bin| * classSize <= T.MaxCachedBytes(table, classSize) / 2
      && (forall b | b in Reverse(list[..n]) :: Owner(own, b) in c.free)
      && s.c == FreeBatch(c, classSize, own, Reverse(list[..n]))
      && s.known == known - n * classSize
    }

    lemma EnqueuedExactly(c: ClassState, own: map<Addr, Addr>, list: seq<Addr>, known: int, s: Spill)
      requires T.Wf(table) && 1 <= classSize <= table.t3 && Enqueued(c, own, list, s.c, s.bin)
      requires |list| * classSize - known == |s.bin| * classSize - s.known
      ensures |list| * classSize <= T.MaxCachedBytes(table, classSize) ==> s == Spill(c, list, known)
      ensures |list| * classSize > T.MaxCachedBytes(table, classSize) ==> s in Spills(c, own, list, known)
    {
      T.WatermarksFitClass(table, classSize);
      DetachCountTight(|list|, |list| * classSize, classSize, Low());
      assert (|list| - |s.bin|) * classSize == |list| * classSize - |s.bin| * classSize;
      if |list| * classSize <= T.MaxCachedBytes(table, classSize) { assert list[..0] == [] && list[0..] == list; }
    }

    /** What the state says of users' blocks. */
    ghost function Sight(): View
      reads this, small, mem
    {
      View(small.State(), bin, mem.words, mem.headers)
    }

    /** A user writes into the payload of a block it holds: the free lists and the bin are as they were, and so
        is every other user's block. */
    method WritePayload(block: Addr, at: Addr, value: Addr)
      requires Valid() && block in Users(classSize, Sight()) && Link(block) <= at < Link(block) + Room(classSize)
      modifies mem`words
      ensures Valid() && mem.words == old(mem.words)[at := value]
      ensures forall b | b in Users(classSize, Sight()) && b != block :: PayloadKept(old(mem.words), mem.words, b, Room(classSize))
    {
      ghost var v, w := Sight(), mem.words;
      UserWriteMisses(classSize, v, block, at);
      small.WritePayload(mem.HeaderOf(block).rawPtr, block, at, value);
      ChainFrame(w, mem.words, head, bin);
    }

    /** NumaArena::deallocate on the block's own arena, and deallocate_foreign without foreign freelists. The
        user's block goes back to its slab; every other user keeps its block and what is in it. */
    method DeallocateLocal(header: Addr)
      requires Valid()
      requires Outstanding(small.State(), classSize, mem.HeaderOf(header).rawPtr, header) && header !in bin
      modifies small, mem`words, mem`slabs
      ensures Valid()
      ensures mem.HeaderOf(header).rawPtr in old(small.free)
      ensures small.State() == Deallocate(old(small.State()), classSize, mem.HeaderOf(header).rawPtr, header)
      ensures Sight() in UsersLose(classSize, old(Sight()), header)
    {
      ghost var v := Sight();
      NotNull(v.c, classSize);
      OwnerOfOne(v.c, classSize, mem.Owners(), header, mem.HeaderOf(header).rawPtr);
      FreeOwn(header);
      UsersAfterFree(classSize, v, Sight(), [header], iset{header});
    }

    /** small_.deallocate; the bin is unaffected. */
    method FreeOwn(header: Addr)
      requires Valid()
      requires Outstanding(small.State(), classSize, mem.HeaderOf(header).rawPtr, header) && header !in bin
      modifies small, mem`words, mem`slabs
      ensures Valid() && mem.HeaderOf(header).rawPtr in old(small.free)
      ensures small.State() == Deallocate(old(small.State()), classSize, mem.HeaderOf(header).rawPtr, header)
      ensures OnlyAt(old(mem.words), mem.words, iset{header})
    {
      ghost var c, own, w := small.State(), mem.Owners(), mem.words;
      NotNull(c, classSize);
      OwnerOfOne(c, classSize, own, header, mem.HeaderOf(header).rawPtr);
      HeldSurvives(c, classSize, own, [header], bin);
      var ok := small.Deallocate(header);
      ChainFrame(w, mem.words, head, bin);
    }

    /** NumaArena::deallocate_foreign for a small block: with foreign freelists it is enqueued, kept in the bin while
        that fits under the cap; without, it is freed to its slab, and bin and counter stay as they are. */
    method DeallocateForeign(header: Addr)
      requires Valid() && mem.HeaderOf(header).sizeClass == classSize && header in Users(classSize, Sight())
      modifies this, small, counter, mem`words, mem`slabs
      ensures Valid() && Sight() in UsersLose(classSize, old(Sight()), header)
      ensures Others() == old(Others())
      ensures foreignFreelistEnabled && (|old(bin)| + 1) * classSize <= T.MaxCachedBytes(table, classSize) ==>
                bin == [header] + old(bin) && small.State() == old(small.State()) && counter.bytes == old(counter.bytes) + classSize
      ensures foreignFreelistEnabled && (|old(bin)| + 1) * classSize > T.MaxCachedBytes(table, classSize) ==>
                Spill(small.State(), bin, counter.bytes) in Spills(old(small.State()), mem.Owners(), [header] + old(bin), old(counter.bytes) + classSize)
      ensures !foreignFreelistEnabled ==>
                && bin == old(bin) && counter.bytes == old(counter.bytes) && mem.HeaderOf(header).rawPtr in old(small.free)
                && small.State() == Deallocate(old(small.State()), classSize, mem.HeaderOf(header).rawPtr, header)
    {
      if foreignFreelistEnabled {
        ghost var v := Sight();
        EnqueueForeignSmall(header);
        UsersAfterEnqueue(v, Sight(), header);
      } else {
        DeallocateLocal(header);
      }
    }

    lemma UsersAfterEnqueue(v: View, v': View, b: Addr)
      requires Ok(v.c, classSize) && BatchOk(v.c, classSize, RawPtrs(v.headers), v.bin) && b in Users(classSize, v)
      requires v'.headers == v.headers && OnlyAt(v.words, v'.words, Set([b] + v.bin))
      requires Enqueued(v.c, RawPtrs(v.headers), [b] + v.bin, v'.c, v'.bin)
      ensures v' in UsersLose(classSize, v, b)
    {
      var list, own, n := [b] + v.bin, RawPtrs(v.headers), Overflow(1 + |v.bin|);
      JoinHeld(v.c, classSize, own, b, v.bin);
      SplitHeld(v.c, classSize, own, list, n);
      SplitMembers(list, n, b, v.bin);
      assert Set(v.bin) + iset{b} == Set(list);
      UsersAfterFree(classSize, v, v', Reverse(list[..n]), iset{b});
    }

    /** NumaArena::allocate for this class. Whatever the hint says, the result is that of the slow path:
        the block, the slabs and the free lists come out the same. None is bad_alloc. Users have this block more
        than before, and theirs are untouched though slabs are mapped and bins drained on the way. */
    method Allocate(os: Option<Addr>) returns (r: Option<Addr>)
      requires Valid() && FreshMapping(mem.slabs, os)
      modifies this, small, counter, mem
      ensures Valid()
      ensures Others() == old(Others())
      ensures forall b | b in old(bin) :: Owner(old(mem.Owners()), b) in old(small.free)
      ensures TakenFrom(r) == ThreeStage(old(small.State()), classSize, old(mem.Owners()), old(bin), os)
      ensures bin == if AllocateExisting(old(small.State())).block == NULL then [] else old(bin)
      ensures r.Some? ==> r.value !in bin && mem.HeaderOf(r.value) == BlockHeader(nodeId, classSize, 0, small.current, SLAB_SIZE)
      ensures if r.Some? then Sight() in UsersGain(classSize, old(Sight()), r.value) else Sight() in UsersKeep(classSize, old(Sight()))
    {
      ghost var v := Sight();
      SlabsAreMapped(v.c, classSize, v.words, mem.slabs, os);
      r := AllocateStamped(os);
      UsersAfterAllocate(classSize, v, Sight(), os, r);
    }

    /** The block, and the header fields that allocate writes. */
    method AllocateStamped(os: Option<Addr>) returns (r: Option<Addr>)
      requires Valid() && FreshMapping(mem.slabs, os)
      modifies this, small, counter, mem
      ensures Valid() && (r.Some? ==> r.value != NULL && r.value !in bin)
      ensures Others() == old(Others())
      ensures Found(TakenFrom(r), bin) in Finds(classSize, old(small.State()), old(mem.Owners()), old(bin), os)
      ensures mem.headers == if r.None? then old(mem.headers)
        else old(mem.headers)[r.value := BlockHeader(nodeId, classSize, 0, small.current, SLAB_SIZE)]
      ensures OnlyAt(old(mem.words), mem.words, Set(old(bin)) + FreshBlocks(os))
    {
      ghost var h := mem.headers;
      r := AllocateBlock(os);
      if r.None? { return; }
      ghost var t, h1 := TakenFrom(r), mem.headers;
      StampHeader(r.value);
      StampedOnce(h, h1, mem.headers, r.value, small.current);
      assert TakenFrom(r) == t;
    }

    /** Which path allocate takes: the plain one, or with the drain hook. */
    method AllocateBlock(os: Option<Addr>) returns (r: Option<Addr>)
      requires Valid() && FreshMapping(mem.slabs, os)
      modifies this, small, counter, mem
      ensures Valid() && (r.Some? ==> r.value != NULL && r.value !in bin)
      ensures Others() == old(Others())
      ensures Found(TakenFrom(r), bin) in Finds(classSize, old(small.State()), old(mem.Owners()), old(bin), os)
      ensures if r.Some? then Headed(old(mem.headers), mem.headers, r.value, small.current) else mem.headers == old(mem.headers)
      ensures OnlyAt(old(mem.words), mem.words, Set(old(bin)) + FreshBlocks(os))
    {
      ghost var c, own := small.State(), mem.Owners();
      BatchStarts(c, classSize, own, bin);
      if !foreignFreelistEnabled || counter.bytes == 0 {
        if bin != [] { MulMono(1, |bin|, classSize); }
        ThreeStageWithEmptyBin(c, classSize, own, os);
        r := AllocatePlain(os);
      } else {
        r := AllocateWithDrain(os);
      }
    }

    /** The header fields that allocate writes. */
    method StampHeader(block: Addr)
      requires Valid()
      modifies mem`headers
      ensures Valid()
      ensures mem.headers == old(mem.headers)[block := old(mem.HeaderOf(block)).(nodeId := nodeId, sizeClass := classSize, size := 0)]
    {
      ghost var h := mem.headers;
      mem.headers := mem.headers[block := mem.HeaderOf(block).(nodeId := nodeId, sizeClass := classSize, size := 0)];
      RestampHeld(h, mem.headers, small.State(), classSize, bin);
    }

    ghost function TakenFrom(r: Option<Addr>): Taken
      reads small, mem
    {
      Taken(small.State(), if r.Some? then r.value else NULL, if r.Some? then mem.HeaderOf(r.value).rawPtr else NULL)
    }

    /** The blocks of the slab at os if the class has mapped it. */
    ghost function FreshBlocks(os: Option<Addr>): iset<Addr>
      reads small
    {
      NewBlocks(os, classSize, small.slabs)
    }

    /** SmallObjectAllocator::allocate_by_class_index without a drain hook. */
    method AllocatePlain(os: Option<Addr>) returns (r: Option<Addr>)
      requires Valid() && FreshMapping(mem.slabs, os)
      modifies small, mem
      ensures Valid() && (r.Some? ==> r.value != NULL && r.value !in bin)
      ensures TakenFrom(r) == SizeClassSpec.Allocate(old(small.State()), classSize, os)
      ensures if r.Some? then Headed(old(mem.headers), mem.headers, r.value, small.current) else mem.headers == old(mem.headers)
      ensures OnlyAt(old(mem.words), mem.words, FreshBlocks(os))
    {
      ghost var c, w, h := small.State(), mem.words, mem.headers;
      SlabsAreMapped(c, classSize, w, mem.slabs, os);
      r := small.Allocate(os);
      GrowKeepsBin(c, classSize, os, Bin(), bin, w, mem.words, h, mem.headers, small.State(), r);
    }

    /** SmallObjectAllocator::allocate_by_class_index with the drain hook: probe, drain, probe again, grow. */
    method AllocateWithDrain(os: Option<Addr>) returns (r: Option<Addr>)
      requires Valid() && FreshMapping(mem.slabs, os)
      modifies this, small, counter, mem
      ensures Valid() && (r.Some? ==> r.value != NULL && r.value !in bin)
      ensures Others() == old(Others())
      ensures Found(TakenFrom(r), bin) in Finds(classSize, old(small.State()), old(mem.Owners()), old(bin), os)
      ensures if r.Some? then Headed(old(mem.headers), mem.headers, r.value, small.current) else mem.headers == old(mem.headers)
      ensures OnlyAt(old(mem.words), mem.words, Set(old(bin)) + FreshBlocks(os))
    {
      ghost var c, s0 := small.State(), mem.slabs;
      MappedSlabs(c, classSize, mem.words, mem.slabs);
      FoundEither(classSize, c, mem.Owners(), bin, os);
      r := AllocateProbe();
      if r.Some? { return; }
      DrainedStillFresh(s0, mem.slabs, c.slabs, c.slabs, os);
      r := DrainAndRetry(os);
    }

    /** The drain hook, the second probe, and the new slab if that finds nothing. */
    method DrainAndRetry(os: Option<Addr>) returns (r: Option<Addr>)
      requires Valid() && FreshMapping(mem.slabs, os)
      modifies this, small, counter, mem
      ensures Valid() && (r.Some? ==> r.value != NULL) && bin == []
      ensures Others() == old(Others())
      ensures forall b | b in old(bin) :: Owner(old(mem.Owners()), b) in old(small.free)
      ensures TakenFrom(r) == SizeClassSpec.Allocate(FreeBatch(old(small.State()), classSize, old(mem.Owners()), old(bin)), classSize, os)
      ensures if r.Some? then Headed(old(mem.headers), mem.headers, r.value, small.current) else mem.headers == old(mem.headers)
      ensures OnlyAt(old(mem.words), mem.words, Set(old(bin)) + FreshBlocks(os))
    {
      ghost var c, s := small.State(), mem.slabs;
      MappedSlabs(c, classSize, mem.words, mem.slabs);
      FreeBatchProperties(c, classSize, mem.Owners(), bin);
      DrainForeignBin();
      DrainedStillFresh(s, mem.slabs, c.slabs, small.slabs, os);
      r := RetryOrGrow(os);
    }

    /** The second probe, and the new slab if it finds nothing. */
    method RetryOrGrow(os: Option<Addr>) returns (r: Option<Addr>)
      requires Valid() && FreshMapping(mem.slabs, os)
      modifies small, mem
      ensures Valid() && (r.Some? ==> r.value != NULL && r.value !in bin)
      ensures TakenFrom(r) == SizeClassSpec.Allocate(old(small.State()), classSize, os)
      ensures if r.Some? then Headed(old(mem.headers), mem.headers, r.value, small.current) else mem.headers == old(mem.headers)
      ensures OnlyAt(old(mem.words), mem.words, FreshBlocks(os))
    {
      ghost var c, s := small.State(), mem.slabs;
      MappedSlabs(c, classSize, mem.words, mem.slabs);
      AllocateExistingProperties(c, classSize);
      r := AllocateProbe();
      if r.Some? { return; }
      DrainedStillFresh(s, mem.slabs, c.slabs, c.slabs, os);
      r := AllocatePlain(os);
    }

    /** allocate_existing on the class; the bin is unaffected. */
    method AllocateProbe() returns (r: Option<Addr>)
      requires Valid()
      modifies small, mem`headers, mem`slabs
      ensures Valid() && (r.Some? ==> r.value != NULL && r.value !in bin)
      ensures TakenFrom(r) == AllocateExisting(old(small.State()))
      ensures if r.Some? then Headed(old(mem.headers), mem.headers, r.value, small.current) else mem.headers == old(mem.headers)
      ensures r.None? ==> mem.Owners() == old(mem.Owners())
      ensures Elsewhere(old(mem.slabs), mem.slabs, small.slabs, small.slabs)
    {
      ghost var c, own, h := small.State(), mem.Owners(), mem.headers;
      AllocateExistingProperties(c, classSize);
      var block := small.AllocateExisting();
      HeldThroughAllocate(c, classSize, None, own, bin);
      if block == NULL { return None; }
      OwnersAgree(h, mem.headers, block, small.current, small.State(), classSize, bin);
      r := Some(block);
    }
  }

  // ---- blocks held in a bin while the class moves on ----

  /** Blocks in a bin are not on any free list. */
  lemma HeldNotFree(c: ClassState, size: nat, own: map<Addr, Addr>, list: seq<Addr>)
    requires Ok(c, size) && BatchOk(c, size, own, list)
    ensures forall b | b in FreeSet(c) :: b !in list
    ensures forall b | b in list :: b != NULL
  {
    forall b | b in list ensures b !in FreeSet(c) && b != NULL {
      var p := Owner(own, b);
      assert Outstanding(c, size, p, b) && SlabOk(p, size, FreeOf(c, p));
      FreeBlockOwner(c, size, p, b);
      BlockBounds(p, size, b);
    }
  }

  lemma JoinHeld(c: ClassState, size: nat, own: map<Addr, Addr>, b: Addr, list: seq<Addr>)
    requires Ok(c, size) && BatchOk(c, size, own, list) && b !in list && Outstanding(c, size, Owner(own, b), b)
    ensures BatchOk(c, size, own, [b] + list) && b != NULL
    ensures forall x | x in [b] + list :: Owner(own, x) in c.free
    ensures forall x | x in FreeSet(c) :: x !in [b] + list
  {
    NoDupPush(b, list);
    forall x | x in [b] + list ensures Outstanding(c, size, Owner(own, x), x) {}
    HeldNotFree(c, size, own, [b] + list);
  }

  lemma LinkFront(w: map<Addr, Addr>, b: Addr, bin: ForeignBatch, size: nat, list: seq<Addr>)
    requires BatchLinked(w, bin, size, list) && b != NULL && b !in list
    ensures BatchLinked(w[Link(b) := bin.head], ForeignBatch(b, bin.count + 1, bin.bytes + size), size, [b] + list)
    ensures OnlyAt(w, w[Link(b) := bin.head], Set([b] + list))
  {
    ChainPush(w, b, bin.head, list);
    assert (|list| + 1) * size == |list| * size + size;
    assert OnlyAt(w, w, Set([b] + list));
    OnlyAtWrite(w, w, Set([b] + list), b, bin.head);
  }

  lemma SplitMembers(list: seq<Addr>, n: nat, b: Addr, rest: seq<Addr>)
    requires NoDup(list) && n <= |list| && list == [b] + rest
    ensures forall x :: x in Reverse(list[..n]) || x in list[n..] <==> x in rest || x == b
  {
    SplitList(list, n);
    forall x ensures x in Reverse(list[..n]) || x in list[n..] <==> x in rest || x == b {
      assert x in Elems(list) <==> x in Elems(Reverse(list[..n])) || x in Elems(list[n..]);
    }
  }

  /** Relinking blocks that are not free leaves the class as it is. */
  lemma SettledFrame(c: ClassState, size: nat, w: map<Addr, Addr>, w': map<Addr, Addr>, slabs: map<Addr, SlabHeader>, list: seq<Addr>)
    requires Picture(c, w, slabs) in Settled(size) && OnlyAt(w, w', Set(list))
    requires forall b | b in FreeSet(c) :: b !in list
    ensures Picture(c, w', slabs) in Settled(size)
  {
    IntactFrame(c, size, w, w', slabs, slabs, Set(list));
  }

  lemma SplitHeld(c: ClassState, size: nat, own: map<Addr, Addr>, list: seq<Addr>, n: nat)
    requires BatchOk(c, size, own, list) && n <= |list|
    ensures BatchOk(c, size, own, list[n..]) && BatchOk(c, size, own, Reverse(list[..n]))
    ensures Set(Reverse(list[..n])) !! Set(list[n..])
    ensures forall b | b in Reverse(list[..n]) :: b in list
    ensures n == 0 ==> list[n..] == list && Reverse(list[..n]) == []
  {
    SplitList(list, n);
    forall b ensures b in Reverse(list[..n]) <==> b in list[..n] { assert b in Elems(Reverse(list[..n])) <==> b in Elems(list[..n]); }
    forall b | b in list[n..] ensures b !in list[..n] { assert b in Elems(list[n..]) && b !in Elems(list[..n]); }
  }

  lemma {:induction false} ReverseSnoc(s: seq<Addr>, x: Addr)
    ensures Reverse(s + [x]) == [x] + Reverse(s)
  {
    if s == [] {
      assert ([] + [x])[1..] == [];
    } else {
      ReverseSnoc(s[1..], x);
      assert (s + [x])[1..] == s[1..] + [x];
    }
  }

  /** Moving the head of the bin to the front of the batch, in memory. */
  lemma MoveHead(w: map<Addr, Addr>, list: seq<Addr>, n: nat, next: Addr, batch: Addr)
    requires NoDup(list) && n < |list|
    requires Chain(w, list[n], list[n..]) && next == Load(w, Link(list[n]))
    requires Chain(w, batch, Reverse(list[..n]))
    ensures Chain(w[Link(list[n]) := batch], next, list[n + 1..])
    ensures Chain(w[Link(list[n]) := batch], list[n], Reverse(list[..n + 1]))
  {
    var b := list[n];
    assert list[n..] == [b] + list[n + 1..] && list[n..][1..] == list[n + 1..];
    assert list[..n + 1] == list[..n] + [b];
    SplitList(list, n);
    ReverseSnoc(list[..n], b);
    assert b !in Reverse(list[..n]) by { assert b in Elems(list[n..]); }
    ChainPush(w, b, batch, Reverse(list[..n]));
    assert b !in list[n + 1..];
    ChainFrame(w, w[Link(b) := batch], next, list[n + 1..]);
  }

  // ---- the overflow loop, step by step ----

  /** Where detach_foreign_until_low_locked is after n turns: memory, the bin and the batch. */
  datatype Detaching = Detaching(n: nat, words: map<Addr, Addr>, bin: ForeignBatch, batch: ForeignBatch)

  ghost function Detaches(w: map<Addr, Addr>, list: seq<Addr>, size: nat, low: nat): iset<Detaching>
  {
    iset d: Detaching | DetachInv(w, list, size, low, d)
  }

  ghost predicate DetachInv(w: map<Addr, Addr>, list: seq<Addr>, size: nat, low: nat, d: Detaching)
  {
    && NoDup(list) && d.n <= |list|
    && BatchLinked(d.words, d.bin, size, list[d.n..])
    && BatchLinked(d.words, d.batch, size, Reverse(list[..d.n]))
    && OnlyAt(w, d.words, Set(list))
    && d.n + DetachCount(|list| - d.n, d.bin.bytes, size, low) == DetachCount(|list|, |list| * size, size, low)
  }

  lemma DetachStep(w: map<Addr, Addr>, list: seq<Addr>, size: nat, low: nat,
                   n: nat, words: map<Addr, Addr>, bin: ForeignBatch, batch: ForeignBatch)
    requires Detaching(n, words, bin, batch) in Detaches(w, list, size, low)
    requires bin.head != NULL && bin.bytes > low
    ensures n < |list| && bin.head == list[n] && bin.count >= 1 && bin.bytes >= size
    ensures Detaching(n + 1, words[Link(bin.head) := batch.head],
                      ForeignBatch(Load(words, Link(bin.head)), bin.count - 1, bin.bytes - size),
                      ForeignBatch(bin.head, batch.count + 1, batch.bytes + size)) in Detaches(w, list, size, low)
  {
    var rest := |list| - n;
    assert rest * size == (rest - 1) * size + size && (n + 1) * size == n * size + size;
    if rest >= 1 { MulMono(1, rest, size); }
    MoveHead(words, list, n, Load(words, Link(list[n])), batch.head);
    OnlyAtWrite(w, words, Set(list), list[n], batch.head);
  }

  lemma DetachEnds(w: map<Addr, Addr>, list: seq<Addr>, size: nat, low: nat,
                   n: nat, words: map<Addr, Addr>, bin: ForeignBatch, batch: ForeignBatch)
    requires Detaching(n, words, bin, batch) in Detaches(w, list, size, low)
    requires bin.head == NULL || bin.bytes <= low
    ensures n <= |list| && n == DetachCount(|list|, |list| * size, size, low)
    ensures BatchLinked(words, bin, size, list[n..]) && BatchLinked(words, batch, size, Reverse(list[..n]))
    ensures OnlyAt(w, words, Set(list))
  {
    if n < |list| { assert list[n..] != [] && list[n..][0] != NULL; }
  }

  /** Freeing other blocks never unmaps the slab of a block held elsewhere. */
  lemma HeldSurvives(c: ClassState, size: nat, own: map<Addr, Addr>, freed: seq<Addr>, list: seq<Addr>)
    requires Ok(c, size) && BatchOk(c, size, own, freed) && BatchOk(c, size, own, list) && Set(freed) !! Set(list)
    ensures forall b | b in freed :: Owner(own, b) in c.free
    ensures BatchOk(FreeBatch(c, size, own, freed), size, own, list)
  {
    FreeBatchProperties(c, size, own, freed);
    var d := FreeBatch(c, size, own, freed);
    forall b | b in list ensures Outstanding(d, size, Owner(own, b), b) {
      var p := Owner(own, b);
      assert Outstanding(c, size, p, b) && b in Set(list);
      FreeBlockOwner(c, size, p, b);
      assert p in d.slabs;
      FreeBlockOwner(d, size, p, b);
    }
  }

  lemma OwnerOfOne(c: ClassState, size: nat, own: map<Addr, Addr>, b: Addr, p: Addr)
    requires Outstanding(c, size, p, b) && Owner(own, b) == p && c.free.Keys == Elems(c.slabs)
    ensures BatchOk(c, size, own, [b]) && p in c.free
    ensures FreeBatch(c, size, own, [b]) == Deallocate(c, size, p, b)
  {
    DeallocateIsBatchOfOne(c, size, own, b);
  }

  /** Allocating never takes a block that is held in a bin, and the held ones stay outstanding. */
  lemma HeldThroughAllocate(c: ClassState, size: nat, os: Option<Addr>, own: map<Addr, Addr>, list: seq<Addr>)
    requires Ok(c, size) && FreshBase(c, os) && BatchOk(c, size, own, list)
    ensures var r := SizeClassSpec.Allocate(c, size, os);
      && BatchOk(r.state, size, own, list) && r.block !in list
      && (os.None? ==> r == AllocateExisting(c))
      && (r.state.slabs != c.slabs ==> r.state.current == os.value && forall b | b in list :: !IsBlock(os.value, size, b))
  {
    AllocateProperties(c, size, os);
    HeldNotFree(c, size, own, list);
    var r := SizeClassSpec.Allocate(c, size, os);
    forall b | b in list
      ensures Outstanding(r.state, size, Owner(own, b), b) && b != r.block
      ensures os.Some? ==> !IsBlock(os.value, size, b)
    {
      var p := Owner(own, b);
      assert Outstanding(c, size, p, b) && SlabOk(p, size, FreeOf(c, p));
      if os.Some? && IsBlock(os.value, size, b) { OwnerUnique(p, os.value, size, size, b); }
      FreeBlockOwner(r.state, size, p, b);
    }
  }

  lemma GrowKeepsBin(c: ClassState, size: nat, os: Option<Addr>, bin: ForeignBatch, list: seq<Addr>, w: map<Addr, Addr>, w': map<Addr, Addr>,
                     h: map<Addr, BlockHeader>, h': map<Addr, BlockHeader>, c': ClassState, r: Option<Addr>)
    requires Ok(c, size) && FreshBase(c, os) && HeldList(w, bin, list, c, RawPtrs(h)) in Held(size)
    requires c' == SizeClassSpec.Allocate(c, size, os).state
    requires SizeClassSpec.Allocate(c, size, os).block == if r.Some? then r.value else NULL
    requires if r.Some? then Headed(h, h', r.value, c'.current) else h' == h
    requires OnlyAt(w, w', if c'.slabs == c.slabs then iset{} else BlocksOf(c'.current, size))
    ensures HeldList(w', bin, list, c', RawPtrs(h')) in Held(size) && OnlyAt(w, w', NewBlocks(os, size, c'.slabs))
    ensures r.Some? ==> r.value !in list
  {
    HeldThroughAllocate(c, size, os, RawPtrs(h), list);
    ChainFrame(w, w', bin.head, list);
    if r.Some? { OwnersAgree(h, h', r.value, c'.current, c', size, list); }
  }

  /** Writing the header of a block that is not held changes no held block's owner. */
  lemma OwnersAgree(h: map<Addr, BlockHeader>, h': map<Addr, BlockHeader>, b: Addr, p: Addr, c: ClassState, size: nat, list: seq<Addr>)
    requires Headed(h, h', b, p) && b !in list
    requires BatchOk(c, size, RawPtrs(h), list)
    ensures BatchOk(c, size, RawPtrs(h'), list)
  {
    var own, own' := RawPtrs(h), RawPtrs(h');
    forall x | x in list ensures Outstanding(c, size, Owner(own', x), x) {
      assert Outstanding(c, size, Owner(own, x), x) && Owner(own', x) == Owner(own, x);
    }
  }

  /** Writing node and size class changes no owner. */
  lemma RestampHeld(h: map<Addr, BlockHeader>, h': map<Addr, BlockHeader>, c: ClassState, size: nat, list: seq<Addr>)
    requires h'.Keys >= h.Keys && (forall x | x in h :: h'[x].rawPtr == h[x].rawPtr)
    requires forall x | x in h' && x !in h :: h'[x].rawPtr == NULL
    requires BatchOk(c, size, RawPtrs(h), list)
    ensures BatchOk(c, size, RawPtrs(h'), list)
  {
    var own, own' := RawPtrs(h), RawPtrs(h');
    forall x | x in list ensures Outstanding(c, size, Owner(own', x), x) {
      assert Outstanding(c, size, Owner(own, x), x) && Owner(own', x) == Owner(own, x);
    }
  }

  /** The slow path spelled out: the first probe's block, or what plain allocate finds after the drain. */
  lemma ThreeStages(c: ClassState, size: nat, own: map<Addr, Addr>, list: seq<Addr>, os: Option<Addr>)
    requires Ok(c, size) && BatchOk(c, size, own, list)
    ensures forall b | b in list :: Owner(own, b) in c.free
    ensures ThreeStage(c, size, own, list, os) ==
            if AllocateExisting(c).block != NULL then AllocateExisting(c)
            else SizeClassSpec.Allocate(FreeBatch(c, size, own, list), size, os)
    ensures AllocateExisting(c).block == NULL ==> AllocateExisting(c).state == c
    ensures forall p | p in FreeBatch(c, size, own, list).slabs :: p in c.slabs
  {
    BatchStarts(c, size, own, list);
    FreeBatchProperties(c, size, own, list);
    AllocateExistingProperties(c, size);
    AllocateExistingProperties(FreeBatch(c, size, own, list), size);
  }

  /** Slabs unmapped meanwhile do not make a fresh region overlap anything. */
  lemma DrainedStillFresh(s: map<Addr, SlabHeader>, s': map<Addr, SlabHeader>, mine: seq<Addr>, now: seq<Addr>, os: Option<Addr>)
    requires Elsewhere(s, s', mine, now) && FreshMapping(s, os)
    requires (forall p | p in now :: p in mine) && (forall p | p in mine :: p in s)
    ensures FreshMapping(s', os)
  {
  }

  // ---- users' blocks through an operation ----

  /** A block of the class, or of a slab that overlaps none of the class's. */
  ghost predicate Placed(c: ClassState, size: nat, y: Addr)
  {
    exists q: Addr {:trigger IsBlock(q, size, y)} :: IsBase(q) && IsBlock(q, size, y) && (q in c.slabs || forall p | p in c.slabs :: Apart(p, q))
  }

  /** No link of another block lies in an outstanding block's payload. */
  lemma LinkOutside(c: ClassState, size: nat, p: Addr, b: Addr, y: Addr)
    requires Ok(c, size) && Outstanding(c, size, p, b) && Placed(c, size, y) && y != b
    ensures !(Link(b) <= Link(y) < Link(b) + Room(size))
  {
    var q: Addr :| IsBase(q) && IsBlock(q, size, y) && (q in c.slabs || forall p | p in c.slabs :: Apart(p, q));
    assert SlabOk(p, size, FreeOf(c, p));
    BlockBounds(p, size, b);
    BlockBounds(q, size, y);
    if q == p { BlocksApart(p, size, b, y); } else { assert Apart(p, q); }
  }

  lemma KeptBesides(c: ClassState, size: nat, p: Addr, b: Addr, w: map<Addr, Addr>, w': map<Addr, Addr>, written: iset<Addr>)
    requires Ok(c, size) && Outstanding(c, size, p, b) && OnlyAt(w, w', written) && b !in written
    requires forall y | y in written :: Placed(c, size, y)
    ensures PayloadKept(w, w', b, Room(size))
  {
    forall a | Link(b) <= a < Link(b) + Room(size) ensures Load(w', a) == Load(w, a) {
      var y := a - HEADER;
      if y in written { LinkOutside(c, size, p, b, y); }
      assert Load(w', Link(y)) == Load(w, Link(y));
    }
  }

  lemma UserWriteMisses(size: nat, v: View, b: Addr, at: Addr)
    requires Ok(v.c, size) && BatchOk(v.c, size, RawPtrs(v.headers), v.bin) && b in Users(size, v) && Link(b) <= at < Link(b) + Room(size)
    ensures forall y | y in v.bin :: Link(y) != at
    ensures forall c | c in Users(size, v) && c != b :: !(Link(c) <= at < Link(c) + Room(size))
  {
    var own := RawPtrs(v.headers);
    forall y | y in v.bin ensures Link(y) != at {
      assert Outstanding(v.c, size, Owner(own, y), y);
      PayloadsApart(v.c, size, Owner(own, b), b, Owner(own, y), y);
    }
    forall c | c in Users(size, v) && c != b ensures !(Link(c) <= at < Link(c) + Room(size)) {
      PayloadsApart(v.c, size, Owner(own, b), b, Owner(own, c), c);
    }
  }

  lemma PayloadsApart(c: ClassState, size: nat, p: Addr, b: Addr, q: Addr, d: Addr)
    requires Ok(c, size) && Outstanding(c, size, p, b) && Outstanding(c, size, q, d) && b != d
    ensures Link(b) + Room(size) <= Link(d) || Link(d) + Room(size) <= Link(b)
  {
    assert SlabOk(p, size, FreeOf(c, p)) && SlabOk(q, size, FreeOf(c, q));
    BlockBounds(p, size, b);
    BlockBounds(q, size, d);
    if q == p { BlocksApart(p, size, b, d); } else { assert Apart(p, q); }
  }

  /** Freeing some of the bin and of what users gave: users lose what they gave and nothing else, wherever the
      rest of the bin is. */
  lemma UsersAfterFree(size: nat, v: View, v': View, freed: seq<Addr>, given: iset<Addr>)
    requires Ok(v.c, size) && BatchOk(v.c, size, RawPtrs(v.headers), v.bin) && v'.headers == v.headers
    requires BatchOk(v.c, size, RawPtrs(v.headers), freed) && (forall b | b in freed :: Owner(RawPtrs(v.headers), b) in v.c.free)
    requires forall b | b in given :: b in Users(size, v)
    requires forall b :: b in freed || b in v'.bin <==> b in v.bin || b in given
    requires v'.c == FreeBatch(v.c, size, RawPtrs(v.headers), freed)
    requires OnlyAt(v.words, v'.words, Set(v.bin) + given)
    ensures Users(size, v') == Users(size, v) - given && Untouched(size, v, v')
  {
    var own := RawPtrs(v.headers);
    FreeBatchProperties(v.c, size, own, freed);
    forall b ensures b in Users(size, v') <==> b in Users(size, v) && b !in given { StillOut(v.c, size, own, freed, b); }
    forall y | y in Set(v.bin) + given ensures Placed(v.c, size, y) && y in Mine(size, v, v') {
      assert Outstanding(v.c, size, Owner(own, y), y);
      assert SlabOk(Owner(own, y), size, FreeOf(v.c, Owner(own, y))) && IsBlock(Owner(own, y), size, y);
    }
    OnlyAtMore(v.words, v'.words, Set(v.bin) + given, Mine(size, v, v'));
    forall b | b in Users(size, v) && b in Users(size, v') ensures PayloadKept(v.words, v'.words, b, Room(size)) && b in v.headers {
      KeptBesides(v.c, size, Owner(own, b), b, v.words, v'.words, Set(v.bin) + given);
      NotNull(v.c, size);
    }
  }

  lemma StillOut(c: ClassState, size: nat, own: map<Addr, Addr>, freed: seq<Addr>, b: Addr)
    requires Ok(c, size) && BatchOk(c, size, own, freed) && forall x | x in freed :: Owner(own, x) in c.free
    ensures Outstanding(FreeBatch(c, size, own, freed), size, Owner(own, b), b) <==> Outstanding(c, size, Owner(own, b), b) && b !in freed
  {
    var d, p := FreeBatch(c, size, own, freed), Owner(own, b);
    FreeBatchProperties(c, size, own, freed);
    if p in c.slabs && IsBlock(p, size, b) {
      FreeBlockOwner(c, size, p, b);
      if p in d.slabs { FreeBlockOwner(d, size, p, b); }
    }
  }

  /** A block taken after its raw_ptr was written becomes outstanding, and no other block does or ceases to be. */
  lemma TakeOut(c: ClassState, size: nat, own: map<Addr, Addr>, os: Option<Addr>, r: Taken, b: Addr)
    requires Ok(c, size) && FreshBase(c, os) && r == SizeClassSpec.Allocate(c, size, os) && r.block != NULL
    ensures !Outstanding(c, size, Owner(own, r.block), r.block)
    ensures Outstanding(r.state, size, Owner(own[r.block := r.slab], b), b) <==> Outstanding(c, size, Owner(own, b), b) || b == r.block
  {
    AllocateProperties(c, size, os);
    TakenWasNotOut(c, size, os, r, Owner(own, r.block));
    var p := Owner(own, b);
    if b == r.block {
      FreeBlockOwner(r.state, size, r.slab, b);
    } else if p in r.state.slabs && IsBlock(p, size, b) {
      FreeBlockOwner(r.state, size, p, b);
      if p in c.slabs { FreeBlockOwner(c, size, p, b); NotNewBlock(c, size, os, p, b); }
    }
  }

  lemma NotNewBlock(c: ClassState, size: nat, os: Option<Addr>, p: Addr, b: Addr)
    requires Ok(c, size) && FreshBase(c, os) && p in c.slabs && IsBlock(p, size, b)
    ensures !(os.Some? && IsBlock(os.value, size, b))
  {
    assert SlabOk(p, size, FreeOf(c, p));
    if os.Some? && IsBlock(os.value, size, b) { OwnerUnique(p, os.value, size, size, b); }
  }

  lemma TakenWasNotOut(c: ClassState, size: nat, os: Option<Addr>, r: Taken, p: Addr)
    requires Ok(c, size) && FreshBase(c, os) && r == SizeClassSpec.Allocate(c, size, os) && r.block != NULL
    ensures !Outstanding(c, size, p, r.block)
  {
    AllocateProperties(c, size, os);
    if Outstanding(c, size, p, r.block) {
      FreeBlockOwner(c, size, p, r.block);
      NotNewBlock(c, size, os, p, r.block);
    }
  }

  /** The class that the last probe of allocate finds: drained, unless the first probe had a block. */
  ghost function Drained(c: ClassState, size: nat, own: map<Addr, Addr>, list: seq<Addr>): ClassState
    requires forall b | b in list :: Owner(own, b) in c.free
  {
    if AllocateExisting(c).block != NULL then c else FreeBatch(c, size, own, list)
  }

  lemma DrainedTakes(c: ClassState, size: nat, own: map<Addr, Addr>, list: seq<Addr>, os: Option<Addr>)
    requires Ok(c, size) && BatchOk(c, size, own, list) && FreshBase(c, os)
    ensures forall b | b in list :: Owner(own, b) in c.free
    ensures var d := Drained(c, size, own, list);
      && Ok(d, size) && FreshBase(d, os) && ThreeStage(c, size, own, list, os) == SizeClassSpec.Allocate(d, size, os)
      && forall b :: b !in list ==> (Outstanding(d, size, Owner(own, b), b) <==> Outstanding(c, size, Owner(own, b), b))
    ensures AllocateExisting(c).block == NULL ==>
      forall b | b in list :: !Outstanding(Drained(c, size, own, list), size, Owner(own, b), b)
  {
    ThreeStages(c, size, own, list, os);
    FreeBatchProperties(c, size, own, list);
    if AllocateExisting(c).block == NULL {
      forall b ensures Outstanding(FreeBatch(c, size, own, list), size, Owner(own, b), b) <==> Outstanding(c, size, Owner(own, b), b) && b !in list {
        StillOut(c, size, own, list, b);
      }
    }
  }

  lemma FoundEither(size: nat, c: ClassState, own: map<Addr, Addr>, list: seq<Addr>, os: Option<Addr>)
    requires Ok(c, size) && BatchOk(c, size, own, list)
    ensures AllocateExisting(c).block != NULL ==> Found(AllocateExisting(c), list) in Finds(size, c, own, list, os)
    ensures forall b | b in list :: Owner(own, b) in c.free
    ensures AllocateExisting(c).block == NULL ==>
      Found(SizeClassSpec.Allocate(FreeBatch(c, size, own, list), size, os), []) in Finds(size, c, own, list, os) && AllocateExisting(c).state == c
  {
    BatchStarts(c, size, own, list);
    ThreeStages(c, size, own, list, os);
  }

  lemma UsersAfterAllocate(size: nat, v: View, v': View, os: Option<Addr>, r: Option<Addr>)
    requires Ok(v.c, size) && BatchOk(v.c, size, RawPtrs(v.headers), v.bin) && FreshBase(v.c, os)
    requires forall b | b in v.bin :: Owner(RawPtrs(v.headers), b) in v.c.free
    requires v'.bin == if AllocateExisting(v.c).block == NULL then [] else v.bin
    requires var t := ThreeStage(v.c, size, RawPtrs(v.headers), v.bin, os);
      && v'.c == t.state && (r.None? <==> t.block == NULL)
      && (r.None? ==> v'.headers == v.headers)
      && (r.Some? ==> t.block == r.value && r.value in v'.headers && v'.headers == v.headers[r.value := v'.headers[r.value]]
                      && v'.headers[r.value].rawPtr == t.slab)
    requires OnlyAt(v.words, v'.words, Set(v.bin) + NewBlocks(os, size, v'.c.slabs))
    ensures if r.Some? then v' in UsersGain(size, v, r.value) else v' in UsersKeep(size, v)
  {
    UsersTaken(size, v, v', os, r);
    TakeLeavesPayloads(size, v, v', os);
    TakeWritesMine(size, v, v', os, r);
    UsersUntouched(size, v, v', r);
  }

  lemma UsersUntouched(size: nat, v: View, v': View, r: Option<Addr>)
    requires Ok(v.c, size) && (forall b | b in Users(size, v) :: PayloadKept(v.words, v'.words, b, Room(size)))
    requires OnlyAt(v.words, v'.words, Mine(size, v, v')) && HeadersOnlyAt(v.headers, v'.headers, Mine(size, v, v'))
    requires if r.Some? then r.value in v'.headers && v'.headers == v.headers[r.value := v'.headers[r.value]] else v'.headers == v.headers
    requires r.Some? ==> r.value !in Users(size, v)
    ensures Untouched(size, v, v')
  {
    forall b | b in Users(size, v) ensures b in v.headers { UserHeaders(size, v, b); }
  }

  lemma TakeWritesMine(size: nat, v: View, v': View, os: Option<Addr>, r: Option<Addr>)
    requires Ok(v.c, size) && BatchOk(v.c, size, RawPtrs(v.headers), v.bin) && FreshBase(v.c, os)
    requires forall b | b in v.bin :: Owner(RawPtrs(v.headers), b) in v.c.free
    requires var t := ThreeStage(v.c, size, RawPtrs(v.headers), v.bin, os);
      && v'.c == t.state && (r.None? <==> t.block == NULL)
      && (r.None? ==> v'.headers == v.headers)
      && (r.Some? ==> t.block == r.value && r.value in v'.headers && v'.headers == v.headers[r.value := v'.headers[r.value]])
    requires OnlyAt(v.words, v'.words, Set(v.bin) + NewBlocks(os, size, v'.c.slabs))
    ensures OnlyAt(v.words, v'.words, Mine(size, v, v'))
    ensures HeadersOnlyAt(v.headers, v'.headers, Mine(size, v, v'))
  {
    LinksAreMine(size, v, v', os);
    DrainedTakes(v.c, size, RawPtrs(v.headers), v.bin, os);
    AllocateProperties(Drained(v.c, size, RawPtrs(v.headers), v.bin), size, os);
    if r.Some? { assert IsBlock(ThreeStage(v.c, size, RawPtrs(v.headers), v.bin, os).slab, size, r.value); }
  }

  lemma LinksAreMine(size: nat, v: View, v': View, os: Option<Addr>)
    requires Ok(v.c, size) && BatchOk(v.c, size, RawPtrs(v.headers), v.bin)
    requires OnlyAt(v.words, v'.words, Set(v.bin) + NewBlocks(os, size, v'.c.slabs))
    ensures OnlyAt(v.words, v'.words, Mine(size, v, v'))
  {
    var own := RawPtrs(v.headers);
    forall y | y in Set(v.bin) + NewBlocks(os, size, v'.c.slabs) ensures y in Mine(size, v, v') {
      if y in v.bin { assert Outstanding(v.c, size, Owner(own, y), y) && IsBlock(Owner(own, y), size, y); } else { assert IsBlock(os.value, size, y); }
    }
    OnlyAtMore(v.words, v'.words, Set(v.bin) + NewBlocks(os, size, v'.c.slabs), Mine(size, v, v'));
  }

  lemma UsersTaken(size: nat, v: View, v': View, os: Option<Addr>, r: Option<Addr>)
    requires Ok(v.c, size) && BatchOk(v.c, size, RawPtrs(v.headers), v.bin) && FreshBase(v.c, os)
    requires forall b | b in v.bin :: Owner(RawPtrs(v.headers), b) in v.c.free
    requires v'.bin == if AllocateExisting(v.c).block == NULL then [] else v.bin
    requires var t := ThreeStage(v.c, size, RawPtrs(v.headers), v.bin, os);
      && v'.c == t.state && (r.None? <==> t.block == NULL)
      && (r.None? ==> v'.headers == v.headers)
      && (r.Some? ==> t.block == r.value && r.value in v'.headers && v'.headers == v.headers[r.value := v'.headers[r.value]]
                      && v'.headers[r.value].rawPtr == t.slab)
    ensures Users(size, v') == if r.Some? then Users(size, v) + iset{r.value} else Users(size, v)
    ensures r.Some? ==> r.value !in Users(size, v)
  {
    var own, list := RawPtrs(v.headers), v.bin;
    var d := Drained(v.c, size, own, list);
    DrainedTakes(v.c, size, own, list, os);
    AllocateProperties(d, size, os);
    if r.Some? {
      var t := SizeClassSpec.Allocate(d, size, os);
      RawPtrsWrite(v.headers, v'.headers, r.value);
      HeldStaysHeld(v.c, d, size, own, list, os, t);
      forall b ensures Outstanding(v'.c, size, Owner(RawPtrs(v'.headers), b), b) <==> Outstanding(d, size, Owner(own, b), b) || b == r.value {
        TakeOut(d, size, own, os, t, b);
      }
      TakeOut(d, size, own, os, t, r.value);
    }
    UsersOf(size, v, d, v', r);
  }

  lemma RawPtrsWrite(h: map<Addr, BlockHeader>, h': map<Addr, BlockHeader>, b: Addr)
    requires b in h' && h' == h[b := h'[b]]
    ensures RawPtrs(h') == RawPtrs(h)[b := h'[b].rawPtr]
  {
  }

  /** The headers that allocate_block and then allocate wrote. */
  lemma StampedOnce(h: map<Addr, BlockHeader>, h1: map<Addr, BlockHeader>, h2: map<Addr, BlockHeader>, b: Addr, slab: Addr)
    requires Headed(h, h1, b, slab) && b in h2 && h2 == h1[b := h2[b]] && h2[b].rawPtr == h1[b].rawPtr
    ensures h2 == h[b := h2[b]] && h2[b].rawPtr == slab
  {
  }

  lemma UsersOf(size: nat, v: View, d: ClassState, v': View, r: Option<Addr>)
    requires forall b :: b !in v.bin ==> (Outstanding(d, size, Owner(RawPtrs(v.headers), b), b) <==> Outstanding(v.c, size, Owner(RawPtrs(v.headers), b), b))
    requires v'.bin == v.bin || (v'.bin == [] && forall b | b in v.bin :: !Outstanding(d, size, Owner(RawPtrs(v.headers), b), b))
    requires r.None? ==> v'.c == d && v'.headers == v.headers
    requires r.Some? ==> r.value !in v'.bin && !Outstanding(d, size, Owner(RawPtrs(v.headers), r.value), r.value)
    requires r.Some? ==> forall b ::
      Outstanding(v'.c, size, Owner(RawPtrs(v'.headers), b), b) <==> Outstanding(d, size, Owner(RawPtrs(v.headers), b), b) || b == r.value
    ensures Users(size, v') == if r.Some? then Users(size, v) + iset{r.value} else Users(size, v)
    ensures r.Some? ==> r.value !in Users(size, v)
  {
  }

  lemma UserHeaders(size: nat, v: View, b: Addr)
    requires Ok(v.c, size) && b in Users(size, v)
    ensures b in v.headers
  {
    NotNull(v.c, size);
  }

  /** The block taken is not one the bin still holds. */
  lemma HeldStaysHeld(c: ClassState, d: ClassState, size: nat, own: map<Addr, Addr>, list: seq<Addr>, os: Option<Addr>, t: Taken)
    requires Ok(c, size) && Ok(d, size) && FreshBase(d, os) && BatchOk(c, size, own, list)
    requires t == SizeClassSpec.Allocate(d, size, os) && t.block != NULL && (AllocateExisting(c).block != NULL ==> d == c)
    ensures AllocateExisting(c).block != NULL ==> t.block !in list
  {
    if t.block in list {
      assert Outstanding(c, size, Owner(own, t.block), t.block);
      TakenWasNotOut(d, size, os, t, Owner(own, t.block));
    }
  }

  lemma TakeLeavesPayloads(size: nat, v: View, v': View, os: Option<Addr>)
    requires Ok(v.c, size) && BatchOk(v.c, size, RawPtrs(v.headers), v.bin) && FreshBase(v.c, os)
    requires OnlyAt(v.words, v'.words, Set(v.bin) + NewBlocks(os, size, v'.c.slabs))
    ensures forall b | b in Users(size, v) :: PayloadKept(v.words, v'.words, b, Room(size))
  {
    var own := RawPtrs(v.headers);
    forall y | y in Set(v.bin) + NewBlocks(os, size, v'.c.slabs) ensures Placed(v.c, size, y) {
      if y in v.bin {
        assert Outstanding(v.c, size, Owner(own, y), y);
        assert SlabOk(Owner(own, y), size, FreeOf(v.c, Owner(own, y))) && IsBlock(Owner(own, y), size, y);
      } else {
        assert IsBlock(os.value, size, y);
      }
    }
    forall b | b in Users(size, v) ensures PayloadKept(v.words, v'.words, b, Room(size)) {
      NotNewBlock(v.c, size, os, Owner(own, b), b);
      KeptBesides(v.c, size, Owner(own, b), b, v.words, v'.words, Set(v.bin) + NewBlocks(os, size, v'.c.slabs));
    }
  }
}
