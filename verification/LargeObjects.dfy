/** LargeObjectAllocator with the state the program has, on an address space it shares with whatever else is
    mapped; each method does, for every request, what LargeSpans says. */
module LargeObjects {
  import opened Arithmetic
  import opened Lists
  import opened SizeClassSpec
  import opened LargeObjectSpec
  import opened LargeSpans
  import H = SlabHeap

  /** Everything that is mapped, and the block headers in it. */
  class AddressSpace {
    var mapped: map<Addr, nat>
    var headers: map<Addr, H.BlockHeader>

    constructor ()
      ensures mapped == map[] && headers == map[]
    {
      mapped, headers := map[], map[];
    }

    /** VirtualMemory::alloc_on_node; None when the OS refuses. */
    method Map(size: nat, os: Option<Addr>) returns (raw: Option<Addr>)
      requires FreshSpan(mapped, size, os)
      modifies `mapped
      ensures raw == os && mapped == if os.Some? then old(mapped)[os.value := size] else old(mapped)
    {
      if os.Some? { mapped := mapped[os.value := size]; }
      raw := os;
    }

    /** VirtualMemory::release: only a mapped region, with the size it was mapped with. */
    method Release(raw: Addr, size: nat)
      requires raw in mapped && mapped[raw] == size
      modifies `mapped
      ensures mapped == old(mapped) - {raw}
    {
      mapped := mapped - {raw};
    }
  }

  /** `mine` is part of what is mapped. */
  ghost predicate Within(mine: map<Addr, nat>, mapped: map<Addr, nat>)
  {
    forall r {:trigger mine[r]} | r in mine :: r in mapped && mapped[r] == mine[r]
  }

  /** What is mapped besides the allocator's own regions is as before. */
  ghost predicate OthersStay(m: map<Addr, nat>, m': map<Addr, nat>, mine: map<Addr, nat>, mine': map<Addr, nat>)
  {
    forall r | r !in mine && r !in mine' :: (r in m' <==> r in m) && (r in m ==> m'[r] == m[r])
  }

  lemma FreshAmongMine(mine: map<Addr, nat>, mapped: map<Addr, nat>, size: nat, os: Option<Addr>)
    requires Within(mine, mapped) && FreshSpan(mapped, size, os)
    ensures FreshSpan(mine, size, os)
  {
    forall r | r in mine && os.Some? ensures SpansApart(r, mine[r], os.value, size) { assert mine[r] == mapped[r]; }
  }

  class LargeObjectAllocator {
    const nodeId: nat
    const limits: Limits  // max_cached_spans_ and max_cached_bytes_
    const pageSize: nat
    const vm: AddressSpace
    const bins: array<SpanBin>
    var cachedSpans: nat
    var cachedBytes: nat
    ghost var mine: map<Addr, nat>
    ghost var live: map<Addr, CachedSpan>
    ghost var at: map<Addr, Whereabouts>

    ghost function Now(): Picture
      reads this, vm, bins
    {
      Picture(nodeId, bins[..], cachedSpans, cachedBytes, mine, at, live, vm.headers)
    }

    /** Every span of this allocator is accounted for, up to one in transit. */
    ghost predicate Has(transit: Option<CachedSpan>)
      reads this, vm, bins
    {
      bins.Length == BINS && Within(mine, vm.mapped) && Now() in Accounted(limits, transit)
    }

    ghost predicate Valid()
      reads this, vm, bins
    {
      IsPageSize(pageSize) && Has(None)
    }

    constructor (nodeId: nat, limits: Limits, pageSize: nat, vm: AddressSpace)
      requires IsPageSize(pageSize)
      ensures Valid() && fresh(bins) && Now() == NewAllocator(nodeId).(headers := vm.headers)
      ensures this.limits == limits && this.pageSize == pageSize && this.vm == vm && this.nodeId == nodeId
    {
      this.nodeId, this.limits, this.pageSize, this.vm := nodeId, limits, pageSize, vm;
      bins := new SpanBin[BINS](_ => EmptyBin());
      cachedSpans, cachedBytes := 0, 0;
      mine, live, at := map[], map[], map[];
      new;
      NewIsAccounted(limits, nodeId);
      HeadersDoNotMatter(limits, nodeId, vm.headers);
      assert bins[..] == NewAllocator(nodeId).bins;
    }

    // ---- spans in and out ----

    /** LargeObjectAllocator::acquire_span; None is bad_alloc. */
    method AcquireSpan(size: nat, os: Option<Addr>) returns (r: Option<CachedSpan>)
      requires Valid() && size > 0 && FreshSpan(vm.mapped, size, os)
      modifies `cachedSpans, `cachedBytes, `mine, `at, bins, vm`mapped
      ensures Has(r) && Acquisition(Now(), r) == Acquire(old(Now()), size, os)
      ensures OthersStay(old(vm.mapped), vm.mapped, old(mine), mine)
    {
      ghost var p := Now();
      FreshAmongMine(mine, vm.mapped, size, os);
      AcquireKeeps(limits, p, size, os);
      r := FindOrMap(size, os);
    }

    /** acquire_span's own code. */
    method FindOrMap(size: nat, os: Option<Addr>) returns (r: Option<CachedSpan>)
      requires bins.Length == BINS && Within(mine, vm.mapped) && FreshSpan(vm.mapped, size, os)
      requires Reusable(bins[..], size).Bin? ==> CanPop(Now(), Reusable(bins[..], size).index)
      modifies `cachedSpans, `cachedBytes, `mine, `at, bins, vm`mapped
      ensures Acquisition(Now(), r) == Acquire(old(Now()), size, os)
      ensures Within(mine, vm.mapped) && OthersStay(old(vm.mapped), vm.mapped, old(mine), mine)
    {
      var b := FindStocked(size);
      if b.Bin? {
        var span := RemoveTop(b.index);
        return Some(span);
      }
      var raw := vm.Map(size, os);
      if raw.None? { return None; }
      mine, at := mine[raw.value := size], at[raw.value := InTransit];
      r := Some(CachedSpan(raw.value, size));
    }

    /** The search loop: the first bin with a span, from the class's own to three above it. */
    method FindStocked(size: nat) returns (r: BinIndex)
      requires bins.Length == BINS
      ensures r == Reusable(bins[..], size)
    {
      BinIndexExact(size);
      var b := BinIndexFor(size);
      if b.NoBin? { return NoBin; }
      var last := LastBin(b.index);
      var i := b.index;
      while i <= last
        invariant b.index <= i <= last + 1
        invariant FirstStocked(bins[..], b.index, last) == FirstStocked(bins[..], i, last)
        decreases last + 1 - i
      {
        if bins[i].count != 0 { return Bin(i); }
        i := i + 1;
      }
      r := NoBin;
    }

    /** CachedSpan span = bin.spans[--bin.count], and the totals with it. */
    method RemoveTop(i: nat) returns (span: CachedSpan)
      requires CanPop(Now(), i)
      modifies `cachedSpans, `cachedBytes, `at, bins
      ensures Now() == PopBin(old(Now()), i) && span == old(bins[i].spans[bins[i].count - 1])
    {
      span := bins[i].spans[bins[i].count - 1];
      bins[i] := bins[i].(count := bins[i].count - 1, bytes := bins[i].bytes - span.size);
      cachedSpans := cachedSpans - 1;
      cachedBytes := cachedBytes - span.size;
      at := at[span.raw := InTransit];
    }

    /** bin.spans[bin.count++] = span, and the totals with it. */
    method StoreTop(i: nat, span: CachedSpan)
      requires i < bins.Length && bins[i].count < |bins[i].spans|
      modifies `cachedSpans, `cachedBytes, `at, bins
      ensures Now() == PushBin(old(Now()), i, span)
    {
      var bin := bins[i];
      bins[i] := SpanBin(bin.spans[bin.count := span], bin.count + 1, bin.bytes + span.size);
      cachedSpans := cachedSpans + 1;
      cachedBytes := cachedBytes + span.size;
      at := at[span.raw := InBin(i, bin.count)];
    }

    /** LargeObjectAllocator::release_to_cache. */
    method ReleaseToCache(span: CachedSpan) returns (cached: bool)
      requires Has(Some(span))
      modifies `cachedSpans, `cachedBytes, `at, bins
      ensures cached == Accepts(old(bins[..]), old(cachedSpans), old(cachedBytes), limits, span.size)
      ensures cached ==> span.size in BIN_SIZES
      ensures forall i | 0 <= i < 16 && BIN_SIZES[i] == span.size ::
                cached <==> old(bins[i]).count < 8 && old(cachedSpans) < limits.spans && old(cachedBytes) + span.size <= limits.bytes
      ensures cached ==> CanPush(old(Now()), span.size) && Now() == PushBin(old(Now()), BinIndexFor(span.size).index, span)
      ensures !cached ==> Now() == old(Now())
    {
      ReturnKeeps(limits, Now(), span);
      BinIndexExact(span.size);
      AcceptsExactly(bins[..], cachedSpans, cachedBytes, limits, span.size);
      var b := BinIndexFor(span.size);
      if b.NoBin? { return false; }
      var i := b.index;
      if bins[i].count >= SPANS_PER_BIN || cachedSpans >= limits.spans || cachedBytes + span.size > limits.bytes {
        return false;
      }
      StoreTop(i, span);
      cached := true;
    }

    /** The end of deallocate: to the cache, or back to the OS. */
    method ReturnSpan(span: CachedSpan)
      requires Has(Some(span))
      modifies `cachedSpans, `cachedBytes, `mine, `at, bins, vm`mapped
      ensures Has(None) && Now() == ReturnStep(old(Now()), limits, span)
      ensures OthersStay(old(vm.mapped), vm.mapped, old(mine), mine)
    {
      ghost var p := Now();
      ReturnKeeps(limits, p, span);
      UnmapKeepsMapped(limits, p, span);
      var cached := ReleaseToCache(span);
      if !cached {
        assert mine[span.raw] == span.size;
        vm.Release(span.raw, span.size);
        mine, at := mine - {span.raw}, at - {span.raw};
      }
    }

    // ---- allocate and deallocate ----

    /** LargeObjectAllocator::allocate, for every request; None is bad_alloc. */
    method Allocate(size: nat, alignment: nat, os: Option<Addr>) returns (r: Option<Addr>)
      requires Valid() && size < WORD && alignment < WORD
      requires GuardPasses(size, EffectiveAlignment(alignment)) ==> FreshSpan(vm.mapped, SpanSize(size, alignment, pageSize), os)
      modifies this, bins, vm
      ensures Now() == AllocateStep(old(Now()), pageSize, size, alignment, os).p
      ensures r == Pointer(AllocateStep(old(Now()), pageSize, size, alignment, os).outcome)
      ensures !Strays(AllocateStep(old(Now()), pageSize, size, alignment, os)) ==> Valid()
      ensures OthersStay(old(vm.mapped), vm.mapped, old(mine), mine) && Within(mine, vm.mapped)
    {
      var align := if alignment < MIN_ALIGNMENT then MIN_ALIGNMENT else alignment;
      if align > WORD - 1 - HEADER || size > WORD - 1 - align - HEADER { return None; }
      var spanSize := ClassSizeFor(size + align + HEADER, pageSize);
      r := AllocateGuarded(size, alignment, align, spanSize, os);
    }

    /** The rest of allocate, once the guard has passed and the class is known. */
    method AllocateGuarded(size: nat, ghost alignment: nat, align: nat, spanSize: nat, os: Option<Addr>) returns (r: Option<Addr>)
      requires Valid() && size < WORD && alignment < WORD && align == EffectiveAlignment(alignment) && GuardPasses(size, align)
      requires spanSize == SpanSize(size, alignment, pageSize) && FreshSpan(vm.mapped, spanSize, os)
      modifies this, bins, vm
      ensures Now() == AllocateStep(old(Now()), pageSize, size, alignment, os).p
      ensures r == Pointer(AllocateStep(old(Now()), pageSize, size, alignment, os).outcome)
      ensures !Strays(AllocateStep(old(Now()), pageSize, size, alignment, os)) ==> Valid()
      ensures OthersStay(old(vm.mapped), vm.mapped, old(mine), mine) && Within(mine, vm.mapped)
    {
      ghost var p := Now();
      FreshAmongMine(mine, vm.mapped, spanSize, os);
      SpanPositive(Total(size, align), pageSize);
      AllocateIs(p, pageSize, size, alignment, os, Acquire(p, spanSize, os));
      AllocateKeeps(limits, p, pageSize, size, alignment, os);
      r := AllocateIn(size, align, spanSize, os);
    }

    /** acquire_span and allocate_from_span. */
    method AllocateIn(size: nat, align: nat, spanSize: nat, os: Option<Addr>) returns (r: Option<Addr>)
      requires Valid() && align < WORD && spanSize > 0 && FreshSpan(vm.mapped, spanSize, os)
      modifies this, bins, vm
      ensures var a := Acquire(old(Now()), spanSize, os);
        if a.span.None? then Now() == a.p && r == None
        else Now() == PlaceStep(a.p, size, align, a.span.value).p && r == Pointer(PlaceStep(a.p, size, align, a.span.value).outcome)
      ensures OthersStay(old(vm.mapped), vm.mapped, old(mine), mine) && Within(mine, vm.mapped)
    {
      var span := AcquireSpan(spanSize, os);
      if span.None? { return None; }
      r := AllocateFromSpan(size, align, span.value);
    }

    /** LargeObjectAllocator::allocate_from_span, for every span; None is bad_alloc, and the span is dropped. */
    method AllocateFromSpan(size: nat, alignment: nat, span: CachedSpan) returns (r: Option<Addr>)
      requires alignment < WORD
      modifies `live, `at, vm`headers
      ensures Now() == PlaceStep(old(Now()), size, alignment, span).p
      ensures r == Pointer(PlaceStep(old(Now()), size, alignment, span).outcome)
    {
      var start := Place(alignment, span.raw);
      if (start + size) % WORD > (span.raw + span.size) % WORD {
        at := at[span.raw := Lost];
        return None;
      }
      vm.headers := vm.headers[HeaderAt(start) := H.BlockHeader(nodeId, 0, size, span.raw, span.size)];
      live, at := live[start := span], at[span.raw := InUse(start)];
      r := Some(start);
    }

    /** LargeObjectAllocator::deallocate. */
    method Deallocate(ptr: Addr)
      requires Valid() && (ptr == NULL || (ptr in live && ptr < WORD))
      modifies this, bins, vm`mapped
      ensures Valid()
      ensures ptr == NULL ==> Now() == old(Now()) && vm.mapped == old(vm.mapped)
      ensures ptr != NULL ==> HeaderAt(ptr) in old(vm.headers) && Now() == DeallocateStep(old(Now()), limits, ptr)
      ensures ptr != NULL ==> OthersStay(old(vm.mapped), vm.mapped, old(mine), mine)
    {
      if ptr == NULL { return; }
      ghost var p, span := Now(), live[ptr];
      DeallocateKeeps(limits, p, ptr);
      TakeBackKeeps(limits, p, ptr);
      DeallocateIs(p, limits, ptr, span);
      var header := vm.headers[HeaderAt(ptr)];
      TakeFromUser(ptr, span.raw);
      ReturnSpan(CachedSpan(header.rawPtr, header.totalSize));
    }

    /** The span at raw is no longer behind ptr: history only. */
    ghost method TakeFromUser(ptr: Addr, raw: Addr)
      modifies `live, `at
      ensures Now() == TakeBack(old(Now()), ptr, raw)
    {
      live, at := live - {ptr}, at[raw := InTransit];
    }

    /** ~LargeObjectAllocator: every cached span is unmapped, once, and nothing else. */
    method Destroy()
      requires Valid()
      modifies vm`mapped
      ensures forall r :: r in vm.mapped <==> r in old(vm.mapped) && !(r in mine && at[r].InBin?)
      ensures forall r | r in vm.mapped :: vm.mapped[r] == old(vm.mapped)[r]
    {
      ghost var p, m := Now(), vm.mapped;
      UnmappedNone(p, m);
      var i := 0;
      while i < bins.Length
        invariant 0 <= i <= BINS
        invariant vm.mapped == Unmapped(p, m, i, 0)
      {
        var j := 0;
        while j < bins[i].count
          invariant 0 <= j <= bins[i].count
          invariant vm.mapped == Unmapped(p, m, i, j)
        {
          UnmapNext(limits, p, m, i, j);
          var span := bins[i].spans[j];
          vm.Release(span.raw, span.size);
          j := j + 1;
        }
        UnmapBinDone(limits, p, m, i);
        i := i + 1;
      }
      UnmapAllDone(limits, p, m);
    }
  }

  /** What the caller gets: a pointer, or None for each kind of bad_alloc. */
  function Pointer(o: Outcome): Option<Addr>
  {
    match o
    case Got(u, _) => Some(u)
    case _ => None
  }

  lemma HeadersDoNotMatter(limits: Limits, node: nat, headers: map<Addr, H.BlockHeader>)
    requires NewAllocator(node) in Accounted(limits, None)
    ensures NewAllocator(node).(headers := headers) in Accounted(limits, None)
  {
    var p, q := NewAllocator(node), NewAllocator(node).(headers := headers);
    Slots(p, q);
  }

  lemma UnmapKeepsMapped(limits: Limits, p: Picture, span: CachedSpan)
    requires p in Accounted(limits, Some(span))
    ensures span.raw in p.mapped && p.mapped[span.raw] == span.size
  {
    UnmapKeeps(limits, p, span);
  }

  // ---- the destructor's loops ----

  /** What is still mapped once the slots before slot j of bin i were unmapped. */
  ghost function Unmapped(p: Picture, m: map<Addr, nat>, i: nat, j: nat): map<Addr, nat>
  {
    map r | r in m && !(r in p.at && p.at[r].InBin? && (p.at[r].i < i || (p.at[r].i == i && p.at[r].j < j))) :: m[r]
  }

  lemma UnmappedNone(p: Picture, m: map<Addr, nat>)
    ensures Unmapped(p, m, 0, 0) == m
  {
  }

  lemma UnmapNext(limits: Limits, p: Picture, m: map<Addr, nat>, i: nat, j: nat)
    requires p in Accounted(limits, None) && Within(p.mapped, m) && i < |p.bins| && j < p.bins[i].count
    ensures j < |p.bins[i].spans| && p.bins[i].spans[j].raw in Unmapped(p, m, i, j)
    ensures Unmapped(p, m, i, j)[p.bins[i].spans[j].raw] == p.bins[i].spans[j].size
    ensures Unmapped(p, m, i, j + 1) == Unmapped(p, m, i, j) - {p.bins[i].spans[j].raw}
  {
    assert BinOk(p.bins[i], BinSize(i));
    var span := p.bins[i].spans[j];
    assert Slot(p, i, j) == Some(span);
    assert Located(p, span.raw, InBin(i, j));
    assert FoundAt(p, None, span.raw) && p.mapped[span.raw] == m[span.raw];
    forall r | r in p.mapped && p.at[r] == InBin(i, j) ensures r == span.raw { assert FoundAt(p, None, r); }
    UnmapOne(p, m, i, j, span.raw);
  }

  lemma UnmapOne(p: Picture, m: map<Addr, nat>, i: nat, j: nat, raw: Addr)
    requires p.at.Keys == p.mapped.Keys && Located(p, raw, InBin(i, j))
    requires forall r | r in p.mapped && p.at[r] == InBin(i, j) :: r == raw
    ensures Unmapped(p, m, i, j + 1) == Unmapped(p, m, i, j) - {raw}
  {
  }

  lemma UnmapBinDone(limits: Limits, p: Picture, m: map<Addr, nat>, i: nat)
    requires p in Accounted(limits, None) && i < |p.bins|
    ensures Unmapped(p, m, i, p.bins[i].count) == Unmapped(p, m, i + 1, 0)
  {
    var a, b := Unmapped(p, m, i, p.bins[i].count), Unmapped(p, m, i + 1, 0);
    forall r ensures r in a <==> r in b {
      if r in p.at && p.at[r].InBin? && p.at[r].i == i { assert FoundAt(p, None, r); }
    }
  }

  lemma UnmapAllDone(limits: Limits, p: Picture, m: map<Addr, nat>)
    requires p in Accounted(limits, None)
    ensures forall r :: r in Unmapped(p, m, BINS, 0) <==> r in m && !(r in p.at && p.at[r].InBin?)
  {
    forall r | r in p.mapped && p.at[r].InBin? ensures p.at[r].i < BINS { assert FoundAt(p, None, r); }
  }
}
