/** The whole allocator: the step system over memory and one LargeObjectAllocator per node, in one address space,
    with the dispatch between them by size on the way in and by the header's size class on the way out. */
module WholeSystem {
  import opened Lists
  import opened Layout
  import opened SizeClassSpec
  import opened Protocol
  import opened ProtocolInvariant
  import opened ProtocolSteps
  import opened ProtocolTransfers
  import opened ProtocolClasses
  import opened ProtocolTheorems
  import opened ProtocolMemory
  import S = LargeObjectSpec
  import L = LargeSpans
  import T = SizeClassTable

  /** `ps` is the page size; `limits` bounds what each large allocator caches. */
  datatype Params = Params(g: Config, limits: L.Limits, ps: nat)

  ghost predicate WfParams(c: Params)
  {
    WfConfig(c.g) && S.IsPageSize(c.ps)
  }

  datatype World = World(sys: Sys, words: map<Addr, Addr>, large: seq<L.Picture>)

  // ---- the invariant ----

  ghost function GoodLarge(limits: L.Limits, node: nat): iset<L.Picture>
  {
    iset p: L.Picture | p in L.Accounted(limits, None) && L.Whole(p) && p.node == node
  }

  /** No span overlaps a slab. */
  ghost predicate SpansOffSlabs(s: Sys, large: seq<L.Picture>)
  {
    forall k, r, j, p {:trigger r in large[k].mapped, InSystem(s, j, p)}
      | 0 <= k < |large| && r in large[k].mapped && InSystem(s, j, p) :: L.SpansApart(r, large[k].mapped[r], p, SLAB_SIZE)
  }

  /** Nor a span of another node. */
  ghost predicate NodesApart(large: seq<L.Picture>)
  {
    forall k, j, r, q {:trigger r in large[k].mapped, q in large[j].mapped}
      | 0 <= k < |large| && 0 <= j < |large| && k != j && r in large[k].mapped && q in large[j].mapped ::
      L.SpansApart(r, large[k].mapped[r], q, large[j].mapped[q])
  }

  ghost predicate NodeOk(c: Params, large: seq<L.Picture>, k: nat)
    requires k < |large|
  {
    large[k] in GoodLarge(c.limits, k)
  }

  ghost predicate LargeSide(c: Params, large: seq<L.Picture>)
  {
    && |large| == c.g.nodes && (forall k {:trigger NodeOk(c, large, k)} | 0 <= k < |large| :: NodeOk(c, large, k))
    && NodesApart(large)
  }

  ghost function LargeSides(c: Params): iset<seq<L.Picture>>
  {
    iset large: seq<L.Picture> | LargeSide(c, large)
  }

  ghost function ClearOf(s: Sys): iset<seq<L.Picture>>
  {
    iset large: seq<L.Picture> | SpansOffSlabs(s, large)
  }

  ghost function Sound(c: Params): iset<World>
  {
    iset w: World | MemSys(w.sys, w.words) in Linked(c.g) && w.large in LargeSides(c) && w.large in ClearOf(w.sys)
  }

  // ---- regions ----

  ghost predicate InSpan(large: seq<L.Picture>, k: nat, x: Addr)
  {
    k < |large| && exists r {:trigger large[k].mapped[r]} :: r in large[k].mapped && r <= x < r + large[k].mapped[r]
  }

  ghost predicate InSomeSpan(large: seq<L.Picture>, x: Addr)
  {
    exists k: nat {:trigger InSpan(large, k, x)} :: InSpan(large, k, x)
  }

  /** A region of `size` bytes that the OS may map: on a page, in the address space, apart from every slab and
      from every span of every node. */
  ghost predicate FreshOfAll(w: World, size: nat, os: Option<Addr>)
  {
    && (forall k {:trigger w.large[k]} | 0 <= k < |w.large| :: L.FreshSpan(w.large[k].mapped, size, os))
    && (os.Some? ==> forall j, p {:trigger InSystem(w.sys, j, p)} | InSystem(w.sys, j, p) :: L.SpansApart(os.value, size, p, SLAB_SIZE))
  }

  // ---- steps ----

  /** A step inside the small side; a request; a free; a write through a pointer a user holds; or anything the
      rest of the program does to memory that is neither slab nor span. */
  datatype WholeEvent =
    | Inner(action: Action)
    | Request(t: nat, size: nat, alignment: nat, os: Option<Addr>)
    | Release(t: nat, u: Addr)
    | Write(range: Range, at: Addr, value: Addr)
    | Rest

  ghost predicate SmallStep(c: Params, w: World, a: Action, w': World)
    requires WfConfig(c.g)
  {
    MemSys(w'.sys, w'.words) in Next(c.g, MemSys(w.sys, w.words), Act(a)) && w'.large == w.large && MapsClear(w.large, a)
  }

  /** A new slab is apart from every span. */
  ghost predicate MapsClear(large: seq<L.Picture>, a: Action)
  {
    a.RunSc? && a.os.Some? ==>
      forall k, r {:trigger r in large[k].mapped} | 0 <= k < |large| && r in large[k].mapped ::
        L.SpansApart(r, large[k].mapped[r], a.os.value, SLAB_SIZE)
  }

  /** Words of slabs, and of spans that are mapped before and after, are as they were. */
  ghost predicate MappedWordsStay(w: World, w': World)
  {
    forall x {:trigger Load(w'.words, x)} | InSlab(w.sys, x) || (InSomeSpan(w.large, x) && InSomeSpan(w'.large, x)) ::
      Load(w'.words, x) == Load(w.words, x)
  }

  /** The thread is between calls and has a cache; its arena is the cache's. */
  ghost predicate CanCall(w: World, t: nat)
  {
    t < |w.sys.threads| && w.sys.threads[t].pc.Idle? && w.sys.threads[t].cache.Cache? && w.sys.threads[t].cache.node < |w.large|
  }

  function Normal(size: nat): nat { if size == 0 then 1 else size }

  predicate IsSmall(g: Config, size: nat, alignment: nat)
  {
    Normal(size) <= g.table.t3 && alignment <= ALIGNMENT
  }

  /** ThreadLocalCache::allocate and NumaArena::allocate: small requests go to the class of their size, the rest to
      the large allocator of the thread's node. Rounding the total of a large one to pages stays a word. */
  ghost predicate RequestStep(c: Params, w: World, t: nat, size: nat, alignment: nat, os: Option<Addr>, w': World)
    requires WfParams(c)
  {
    if IsSmall(c.g, size, alignment) then
      T.ClassIndex(c.g.table, Normal(size)).Index? && SmallStep(c, w, Malloc(t, T.ClassIndex(c.g.table, Normal(size)).value), w')
    else
      CanCall(w, t) && LargeMalloc(c, w, w.sys.threads[t].cache.node, Normal(size), alignment, os, w')
  }

  ghost predicate LargeMalloc(c: Params, w: World, k: nat, n: nat, alignment: nat, os: Option<Addr>, w': World)
    requires S.IsPageSize(c.ps)
  {
    && k < |w.large| && |w.large[k].bins| == S.BINS && n < S.WORD && alignment < S.WORD
    && (S.GuardPasses(n, S.EffectiveAlignment(alignment)) ==> S.Unwrapped(n, alignment, c.ps) && FreshOfAll(w, S.SpanSize(n, alignment, c.ps), os))
    && w'.sys == w.sys && w'.large == w.large[k := L.AllocateStep(w.large[k], c.ps, n, alignment, os).p] && MappedWordsStay(w, w')
  }

  /** What a reader of the header at b sees: the slab's block header where a slab covers b, the large allocator's
      where a span does. */
  datatype Seen = Seen(node: nat, sizeClass: nat)

  ghost function HeaderSeen(w: World, b: Addr): Seen
  {
    if InSlab(w.sys, b) then Seen(HdrOf(w.sys, b).node, HdrOf(w.sys, b).size)
    else if exists k: nat :: InSpan(w.large, k, b) && b in w.large[k].headers then
      var k: nat :| InSpan(w.large, k, b) && b in w.large[k].headers;
      Seen(w.large[k].headers[b].nodeId, w.large[k].headers[b].sizeClass)
    else Seen(0, 0)
  }

  /** ThreadLocalCache::deallocate and NumaArena::deallocate: by the header's size class to the small or the large
      side, there to the node the header names. */
  ghost predicate ReleaseStep(c: Params, w: World, t: nat, u: Addr, w': World)
    requires WfParams(c)
  {
    && u >= HEADER
    && var h := HeaderSeen(w, u - HEADER);
       if h.sizeClass != 0 then SmallStep(c, w, Free(t, u - HEADER), w')
       else CanCall(w, t) && LargeFree(c, w, h.node, u, w')
  }

  ghost predicate LargeFree(c: Params, w: World, k: nat, u: Addr, w': World)
  {
    && k < |w.large| && |w.large[k].bins| == S.BINS && u in w.large[k].live && u < S.WORD && L.HeaderAt(u) in w.large[k].headers
    && w'.sys == w.sys && w'.large == w.large[k := L.DeallocateStep(w.large[k], c.limits, u)] && MappedWordsStay(w, w')
  }

  ghost function NextOf(c: Params, w: World, e: WholeEvent): iset<World>
    requires WfParams(c)
  {
    iset w': World | IsNextOf(c, w, e, w')
  }

  ghost predicate IsNextOf(c: Params, w: World, e: WholeEvent, w': World)
    requires WfParams(c)
  {
    match e
    case Inner(a) => !a.Malloc? && !a.Free? && SmallStep(c, w, a, w')
    case Request(t, size, alignment, os) => RequestStep(c, w, t, size, alignment, os, w')
    case Release(t, u) => ReleaseStep(c, w, t, u, w')
    case Write(r, at, value) => r in Held(w) && r.start <= at < r.start + r.len && w' == w.(words := w.words[at := value])
    case Rest => w'.sys == w.sys && w'.large == w.large && MappedWordsStay(w, w')
  }

  // ---- what users hold ----

  function LargeRange(p: L.Picture, u: Addr): Range
  {
    Range(u, if u >= HEADER && u - HEADER in p.headers then p.headers[u - HEADER].size else 0)
  }

  ghost predicate LargeHas(large: seq<L.Picture>, r: Range)
  {
    exists k: nat {:trigger HasAt(large, k, r)} :: HasAt(large, k, r)
  }

  ghost predicate HasAt(large: seq<L.Picture>, k: nat, r: Range)
  {
    k < |large| && r.start in large[k].live && r == LargeRange(large[k], r.start)
  }

  ghost function Held(w: World): iset<Range>
  {
    iset r | r in View(w.sys) || LargeHas(w.large, r)
  }

  // ---- slabs and spans stay apart ----

  lemma SpanNotSlab(s: Sys, large: seq<L.Picture>, k: nat, x: Addr)
    requires large in ClearOf(s) && InSpan(large, k, x)
    ensures !InSlab(s, x)
  {
    var r: Addr :| r in large[k].mapped && r <= x < r + large[k].mapped[r];
    forall j: Key, p: Addr | InSystem(s, j, p) ensures !(p <= x < p + SLAB_SIZE) { assert r in large[k].mapped; }
  }

  /** A slab that is mapped after a step was mapped before it, or came from the OS in it. */
  lemma SlabsFrom(g: Config, s: Sys, a: Action, j: Key, p: Addr)
    requires s in Good(g) && Enabled(g, s, a) && InSystem(Apply(g, s, a), j, p)
    ensures InSystem(s, j, p) || (a.RunSc? && a.os == Some(p))
  {
    if a.RunSc? { RunScSlabsFrom(g, s, a.t, a.os, j, p); } else { OthersSlabsFrom(g, s, a, j); }
  }

  lemma OthersSlabsFrom(g: Config, s: Sys, a: Action, j: Key)
    requires s in Good(g) && Enabled(g, s, a) && !a.RunSc? && j in Apply(g, s, a).cls
    ensures j in s.cls && Apply(g, s, a).cls[j].sc == s.cls[j].sc
  {
    StepKeeps(g, s, a);
    KeyFacts(g, Apply(g, s, a), j);
    assert j in s.cls;
    SlabsChangeOnlyUnderLock(g, s, a, j);
  }

  lemma RunScSlabsFrom(g: Config, s: Sys, t: nat, os: Option<Addr>, j: Key, p: Addr)
    requires s in Good(g) && Enabled(g, s, RunSc(t, os)) && InSystem(Apply(g, s, RunSc(t, os)), j, p)
    ensures InSystem(s, j, p) || os == Some(p)
  {
    var k, op := s.threads[t].pc.key, s.threads[t].pc.op;
    KeyFacts(g, s, k);
    if op.FreeOne? || op.FreeMany? {
      var sc := FreeResultSlabs(g, s, t, os, k, op);
      FreeBatchProperties(s.cls[k].sc, SizeOf(g, k), Owners(s), OpBlocks(op));
    } else {
      FreshForClass(s, k, os);
      AllocateExistingProperties(s.cls[k].sc, SizeOf(g, k));
      AllocateProperties(s.cls[k].sc, SizeOf(g, k), os);
      TakenSlabsFrom(g, s, t, os, k, op, j, p);
    }
  }

  lemma TakenSlabsFrom(g: Config, s: Sys, t: nat, os: Option<Addr>, k: Key, op: ScOp, j: Key, p: Addr)
    requires WfConfig(g) && Enabled(g, s, RunSc(t, os)) && s.threads[t].pc == InSc(k, op) && !op.FreeOne? && !op.FreeMany?
    requires InSystem(Apply(g, s, RunSc(t, os)), j, p) && Capacity(SizeOf(g, k)) > 0
    requires forall q | q in AllocateExisting(s.cls[k].sc).state.slabs :: q in s.cls[k].sc.slabs
    requires forall q | q in Allocate(s.cls[k].sc, SizeOf(g, k), os).state.slabs :: q in s.cls[k].sc.slabs || os == Some(q)
    ensures InSystem(s, j, p) || os == Some(p)
  {
    match op
    case Plain => TakeSlabsFrom(g, s, t, Allocate(s.cls[k].sc, SizeOf(g, k), os), Idle, j, p);
    case Grow => TakeSlabsFrom(g, s, t, Allocate(s.cls[k].sc, SizeOf(g, k), os), Idle, j, p);
    case Probe1 => TakeSlabsFrom(g, s, t, AllocateExisting(s.cls[k].sc), WantBin(k, Drain), j, p);
    case Probe2 => TakeSlabsFrom(g, s, t, AllocateExisting(s.cls[k].sc), WantSc(k, ScOp.Grow), j, p);
  }

  lemma TakeSlabsFrom(g: Config, s: Sys, t: nat, r: Taken, otherwise: Pc, j: Key, p: Addr)
    requires t < |s.threads| && s.threads[t].pc.InSc? && s.threads[t].pc.key in s.cls
    requires InSystem(TakeBlock(g, s, t, r, otherwise), j, p)
    ensures InSystem(s, j, p) || (j == s.threads[t].pc.key && p in r.state.slabs)
  {
  }

  lemma SmallKeeps(c: Params, w: World, a: Action, w': World)
    requires WfParams(c) && w in Sound(c) && SmallStep(c, w, a, w')
    ensures w' in Sound(c)
  {
    MemoryKeeps(c.g, MemSys(w.sys, w.words), Act(a), MemSys(w'.sys, w'.words));
    forall k, r, j, p | 0 <= k < |w.large| && r in w.large[k].mapped && InSystem(w'.sys, j, p)
      ensures L.SpansApart(r, w.large[k].mapped[r], p, SLAB_SIZE)
    {
      SlabsFrom(c.g, w.sys, a, j, p);
    }
  }

  /** Words outside the slabs do not matter to the small side. */
  lemma OutsideKeeps(c: Params, w: World, w': World)
    requires WfParams(c) && w in Sound(c) && w'.sys == w.sys
    requires forall x {:trigger Load(w'.words, x)} | InSlab(w.sys, x) :: Load(w'.words, x) == Load(w.words, x)
    ensures MemSys(w'.sys, w'.words) in Linked(c.g)
  {
    MemoryKeeps(c.g, MemSys(w.sys, w.words), Outside, MemSys(w'.sys, w'.words));
  }

  // ---- the large side ----

  /** What a large request maps: nothing, or the region the OS gave. */
  lemma AllocateMaps(p: L.Picture, ps: nat, n: nat, alignment: nat, os: Option<Addr>) returns (grew: bool)
    requires |p.bins| == S.BINS && n < S.WORD && alignment < S.WORD && ps < S.WORD
    ensures grew ==> os.Some? && S.GuardPasses(n, S.EffectiveAlignment(alignment))
    ensures var r := L.AllocateStep(p, ps, n, alignment, os);
      r.p.node == p.node && r.p.mapped == if grew then p.mapped[os.value := S.SpanSize(n, alignment, ps)] else p.mapped
  {
    var align := S.EffectiveAlignment(alignment);
    if !S.GuardPasses(n, align) { return false; }
    var a := L.Acquire(p, S.SpanSize(n, alignment, ps), os);
    grew := AcquireMaps(p, S.SpanSize(n, alignment, ps), os);
    if a.span.Some? { PlaceMaps(a.p, n, align, a.span.value); }
  }

  lemma AcquireMaps(p: L.Picture, size: nat, os: Option<Addr>) returns (grew: bool)
    requires |p.bins| == S.BINS
    ensures grew ==> os.Some?
    ensures L.Acquire(p, size, os).p.node == p.node
    ensures L.Acquire(p, size, os).p.mapped == if grew then p.mapped[os.value := size] else p.mapped
  {
    grew := L.Reusable(p.bins, size).NoBin? && os.Some?;
  }

  lemma PlaceMaps(p: L.Picture, n: nat, alignment: nat, span: L.CachedSpan)
    requires alignment < S.WORD
    ensures L.PlaceStep(p, n, alignment, span).p.node == p.node && L.PlaceStep(p, n, alignment, span).p.mapped == p.mapped
  {
  }

  lemma DeallocateUnmaps(p: L.Picture, limits: L.Limits, u: Addr)
    requires |p.bins| == S.BINS && L.HeaderAt(u) in p.headers
    ensures L.DeallocateStep(p, limits, u).node == p.node
    ensures forall r | r in L.DeallocateStep(p, limits, u).mapped :: r in p.mapped && L.DeallocateStep(p, limits, u).mapped[r] == p.mapped[r]
  {
  }

  /** Every region of p is one of q's, or the fresh one. */
  ghost predicate RegionsFrom(q: L.Picture, p: L.Picture, grew: bool, size: nat, os: Option<Addr>)
  {
    forall r {:trigger p.mapped[r]} | r in p.mapped ::
      (r in q.mapped && p.mapped[r] == q.mapped[r]) || (grew && os == Some(r) && p.mapped[r] == size)
  }

  /** The large side with one node's allocator replaced by one that has no regions but old ones and a fresh one. */
  lemma ReplaceLarge(c: Params, w: World, k: nat, p: L.Picture, grew: bool, size: nat, os: Option<Addr>)
    requires w in Sound(c) && k < |w.large| && p in GoodLarge(c.limits, k)
    requires RegionsFrom(w.large[k], p, grew, size, os) && (grew ==> FreshOfAll(w, size, os))
    ensures w.large[k := p] in LargeSides(c) && w.large[k := p] in ClearOf(w.sys)
  {
    ReplaceApart(w, k, p, grew, size, os);
    ReplaceClear(w, k, p, grew, size, os);
    var large := w.large[k := p];
    forall i | 0 <= i < |large| ensures NodeOk(c, large, i) { assert NodeOk(c, w.large, i); }
  }

  lemma ReplaceClear(w: World, k: nat, p: L.Picture, grew: bool, size: nat, os: Option<Addr>)
    requires SpansOffSlabs(w.sys, w.large) && k < |w.large|
    requires RegionsFrom(w.large[k], p, grew, size, os) && (grew ==> FreshOfAll(w, size, os))
    ensures w.large[k := p] in ClearOf(w.sys)
  {
    forall r, j, q | r in p.mapped && InSystem(w.sys, j, q) ensures L.SpansApart(r, p.mapped[r], q, SLAB_SIZE) {
      assert p.mapped[r] == p.mapped[r];
    }
  }

  lemma ReplaceApart(w: World, k: nat, p: L.Picture, grew: bool, size: nat, os: Option<Addr>)
    requires NodesApart(w.large) && k < |w.large|
    requires RegionsFrom(w.large[k], p, grew, size, os) && (grew ==> FreshOfAll(w, size, os))
    ensures NodesApart(w.large[k := p])
  {
    forall j, r, q | 0 <= j < |w.large| && j != k && r in p.mapped && q in w.large[j].mapped
      ensures L.SpansApart(r, p.mapped[r], q, w.large[j].mapped[q])
    {
      assert p.mapped[r] == p.mapped[r] && w.large[j].mapped[q] == w.large[j].mapped[q];
    }
  }

  lemma LargeMallocKeeps(c: Params, w: World, k: nat, n: nat, alignment: nat, os: Option<Addr>, w': World)
    requires WfParams(c) && w in Sound(c) && LargeMalloc(c, w, k, n, alignment, os, w')
    ensures w' in Sound(c)
  {
    var p := w.large[k];
    assert NodeOk(c, w.large, k);
    L.AllocateKeepsWhole(c.limits, p, c.ps, n, alignment, os);
    L.AllocateKeeps(c.limits, p, c.ps, n, alignment, os);
    var grew := AllocateMaps(p, c.ps, n, alignment, os);
    ReplaceLarge(c, w, k, L.AllocateStep(p, c.ps, n, alignment, os).p, grew, S.SpanSize(n, alignment, c.ps), os);
    OutsideKeeps(c, w, w');
  }

  lemma LargeFreeKeeps(c: Params, w: World, k: nat, u: Addr, w': World)
    requires WfParams(c) && w in Sound(c) && LargeFree(c, w, k, u, w')
    ensures w' in Sound(c)
  {
    var p := w.large[k];
    assert NodeOk(c, w.large, k);
    L.DeallocateKeeps(c.limits, p, u);
    L.DeallocateKeepsWhole(c.limits, p, u);
    DeallocateUnmaps(p, c.limits, u);
    ReplaceLarge(c, w, k, L.DeallocateStep(p, c.limits, u), false, 0, None);
    OutsideKeeps(c, w, w');
  }

  /** A large allocation a user holds: header and payload lie in one span of its node, the header is the large
      allocator's and names the node. */
  lemma LargeHeld(c: Params, large: seq<L.Picture>, k: nat, u: Addr) returns (raw: Addr)
    requires large in LargeSides(c) && k < |large| && u in large[k].live
    ensures u >= HEADER && u - HEADER in large[k].headers
    ensures large[k].headers[u - HEADER].nodeId == k && large[k].headers[u - HEADER].sizeClass == 0
    ensures raw == large[k].live[u].raw && raw in large[k].mapped && raw <= u - HEADER
    ensures u + large[k].headers[u - HEADER].size <= raw + large[k].mapped[raw]
  {
    assert NodeOk(c, large, k);
    raw := large[k].live[u].raw;
    OnNode(c, large[k], k, u);
  }

  lemma OnNode(c: Params, p: L.Picture, k: nat, u: Addr)
    requires p in GoodLarge(c.limits, k) && u in p.live
    ensures u >= HEADER && u - HEADER in p.headers && p.headers[u - HEADER].nodeId == k && p.headers[u - HEADER].sizeClass == 0
    ensures p.live[u].raw in p.mapped && p.live[u].raw <= u - HEADER
    ensures u + p.headers[u - HEADER].size <= p.live[u].raw + p.mapped[p.live[u].raw]
  {
    L.LiveFacts(c.limits, p, u);
    assert L.PayloadInside(p, u);
  }

  lemma InSpanOf(large: seq<L.Picture>, k: nat, r: Addr, x: Addr)
    requires k < |large| && r in large[k].mapped && r <= x < r + large[k].mapped[r]
    ensures InSpan(large, k, x)
  {
    assert large[k].mapped[r] == large[k].mapped[r];
  }

  /** A byte of a large allocation is in a span, outside every slab. */
  lemma LargeByte(c: Params, w: World, r: Range, x: Addr)
    requires w.large in LargeSides(c) && w.large in ClearOf(w.sys) && LargeHas(w.large, r) && r.start <= x < r.start + r.len
    ensures InSomeSpan(w.large, x) && !InSlab(w.sys, x) && x >= HEADER
  {
    var k: nat :| HasAt(w.large, k, r);
    var raw := LargeHeld(c, w.large, k, r.start);
    InSpanOf(w.large, k, raw, x);
    SpanNotSlab(w.sys, w.large, k, x);
  }

  lemma SmallWriteKeeps(c: Params, w: World, r: Range, at: Addr, value: Addr)
    requires WfParams(c) && w in Sound(c) && r in View(w.sys) && r.start <= at < r.start + r.len
    ensures MemSys(w.sys, w.words[at := value]) in Linked(c.g)
  {
    var b :| b in w.sys.live && r == RangeOf(w.sys, b);
    MemoryKeeps(c.g, MemSys(w.sys, w.words), UserWrite(b, at, value), MemSys(w.sys, w.words[at := value]));
  }

  lemma WriteKeeps(c: Params, w: World, r: Range, at: Addr, value: Addr, w': World)
    requires WfParams(c) && w in Sound(c) && w' in NextOf(c, w, Write(r, at, value))
    ensures w' in Sound(c)
  {
    if r in View(w.sys) {
      SmallWriteKeeps(c, w, r, at, value);
    } else {
      LargeByte(c, w, r, at);
      OutsideKeeps(c, w, w');
    }
  }

  /** Every step of the whole allocator keeps both sides sound and apart: lists stay threaded, spans stay
      accounted for and whole, and no slab or span overlaps another. */
  lemma WholeKeeps(c: Params, w: World, e: WholeEvent, w': World)
    requires WfParams(c) && w in Sound(c) && w' in NextOf(c, w, e)
    ensures w' in Sound(c)
  {
    match e
    case Inner(a) => SmallKeeps(c, w, a, w');
    case Request(t, size, alignment, os) => RequestKeeps(c, w, t, size, alignment, os, w');
    case Release(t, u) => ReleaseKeeps(c, w, t, u, w');
    case Write(r, at, value) => WriteKeeps(c, w, r, at, value, w');
    case Rest => OutsideKeeps(c, w, w');
  }

  lemma RequestKeeps(c: Params, w: World, t: nat, size: nat, alignment: nat, os: Option<Addr>, w': World)
    requires WfParams(c) && w in Sound(c) && RequestStep(c, w, t, size, alignment, os, w')
    ensures w' in Sound(c)
  {
    if IsSmall(c.g, size, alignment) {
      SmallKeeps(c, w, Malloc(t, T.ClassIndex(c.g.table, Normal(size)).value), w');
    } else {
      LargeMallocKeeps(c, w, w.sys.threads[t].cache.node, Normal(size), alignment, os, w');
    }
  }

  lemma ReleaseKeeps(c: Params, w: World, t: nat, u: Addr, w': World)
    requires WfParams(c) && w in Sound(c) && ReleaseStep(c, w, t, u, w')
    ensures w' in Sound(c)
  {
    var h := HeaderSeen(w, u - HEADER);
    if h.sizeClass != 0 { SmallKeeps(c, w, Free(t, u - HEADER), w'); } else { LargeFreeKeeps(c, w, h.node, u, w'); }
  }

  // ---- dispatch ----

  lemma OneNodesSpan(large: seq<L.Picture>, k: nat, j: nat, x: Addr)
    requires NodesApart(large) && InSpan(large, k, x) && InSpan(large, j, x)
    ensures k == j
  {
    var r: Addr :| r in large[k].mapped && r <= x < r + large[k].mapped[r];
    var q: Addr :| q in large[j].mapped && q <= x < q + large[j].mapped[q];
    var m, n := large[k].mapped[r], large[j].mapped[q];
    assert k != j ==> L.SpansApart(r, m, q, n);
  }

  /** The header below any pointer a user holds sends its free to the side, node and class it came from. */
  lemma SmallFreeGoesHome(c: Params, w: World, b: Addr)
    requires WfParams(c) && w in Sound(c) && b in w.sys.live
    ensures var k := KeyOf(c.g, HdrOf(w.sys, b));
      && IsKey(c.g, k) && HeaderSeen(w, b) == Seen(k.node, SizeOf(c.g, k)) && SizeOf(c.g, k) != 0
      && InSystem(w.sys, k, HdrOf(w.sys, b).slab) && !InSomeSpan(w.large, b)
  {
    var k := LiveBlock(c.g, w.sys, b);
    SlabFacts(c.g, w.sys, k, w.sys.hdr[b].slab);
    BlockBounds(w.sys.hdr[b].slab, SizeOf(c.g, k), b);
    SizesRoute(c.g, k);
    assert InSystem(w.sys, k, w.sys.hdr[b].slab) && InSlab(w.sys, b);
    if InSomeSpan(w.large, b) {
      var j: nat :| InSpan(w.large, j, b);
      SpanNotSlab(w.sys, w.large, j, b);
    }
  }

  lemma LargeFreeGoesHome(c: Params, w: World, k: nat, u: Addr)
    requires WfParams(c) && w in Sound(c) && k < |w.large| && u in w.large[k].live
    ensures u >= HEADER && HeaderSeen(w, u - HEADER) == Seen(k, 0) && !InSlab(w.sys, u - HEADER)
  {
    var raw := LargeHeld(c, w.large, k, u);
    HeaderInSpan(c, w, k, raw, u - HEADER);
  }

  lemma HeaderInSpan(c: Params, w: World, k: nat, raw: Addr, b: Addr)
    requires w.large in LargeSides(c) && w.large in ClearOf(w.sys) && k < |w.large| && b in w.large[k].headers
    requires raw in w.large[k].mapped && raw <= b < raw + w.large[k].mapped[raw]
    ensures HeaderSeen(w, b) == Seen(w.large[k].headers[b].nodeId, w.large[k].headers[b].sizeClass) && !InSlab(w.sys, b)
  {
    InSpanOf(w.large, k, raw, b);
    SpanNotSlab(w.sys, w.large, k, b);
    SeenInSpan(c, w, k, b);
  }

  lemma SeenInSpan(c: Params, w: World, k: nat, b: Addr)
    requires w.large in LargeSides(c) && InSpan(w.large, k, b) && b in w.large[k].headers && !InSlab(w.sys, b)
    ensures HeaderSeen(w, b) == Seen(w.large[k].headers[b].nodeId, w.large[k].headers[b].sizeClass)
  {
    forall j: nat | InSpan(w.large, j, b) ensures j == k { OneNodesSpan(w.large, k, j, b); }
  }

  // ---- ranges users hold do not overlap ----

  lemma SmallRange(g: Config, s: Sys, r: Range) returns (j: Key, p: Addr)
    requires s in Good(g) && r in View(s)
    ensures InSystem(s, j, p) && r.len > 0 && p <= r.start && r.start + r.len <= p + SLAB_SIZE
  {
    var b :| b in s.live && r == RangeOf(s, b);
    LiveBlockFits(g, s, b);
    j := LiveBlock(g, s, b);
    p := s.hdr[b].slab;
  }

  lemma LargeRangeInSpan(c: Params, large: seq<L.Picture>, q: Range) returns (k: nat, raw: Addr)
    requires large in LargeSides(c) && LargeHas(large, q)
    ensures k < |large| && raw in large[k].mapped && raw <= q.start && q.start + q.len <= raw + large[k].mapped[raw] && q.start >= HEADER
  {
    k :| HasAt(large, k, q);
    raw := LargeHeld(c, large, k, q.start);
  }

  lemma SmallLargeDisjoint(c: Params, s: Sys, large: seq<L.Picture>, r: Range, q: Range)
    requires s in Good(c.g) && large in LargeSides(c) && large in ClearOf(s) && r in View(s) && LargeHas(large, q)
    ensures Disjoint(r, q) && Disjoint(q, r) && r != q
  {
    var j, p := SmallRange(c.g, s, r);
    var k, raw := LargeRangeInSpan(c, large, q);
    var size := large[k].mapped[raw];
    assert L.SpansApart(raw, size, p, SLAB_SIZE);
  }

  lemma LargeLargeDisjoint(c: Params, large: seq<L.Picture>, k: nat, u: Addr, j: nat, v: Addr)
    requires large in LargeSides(c) && k < |large| && j < |large| && u in large[k].live && v in large[j].live && (k != j || u != v)
    ensures Disjoint(LargeRange(large[k], u), LargeRange(large[j], v))
  {
    var raw := LargeHeld(c, large, k, u);
    var raw' := LargeHeld(c, large, j, v);
    if k != j {
      assert L.SpansApart(raw, large[k].mapped[raw], raw', large[j].mapped[raw']);
    } else {
      assert NodeOk(c, large, k);
      LiveOnOneNode(c, large[k], k, u, v);
    }
  }

  lemma LiveOnOneNode(c: Params, p: L.Picture, k: nat, u: Addr, v: Addr)
    requires p in GoodLarge(c.limits, k) && u in p.live && v in p.live && u != v
    ensures Disjoint(LargeRange(p, u), LargeRange(p, v))
  {
    L.LiveSpansDisjoint(c.limits, p, u, v);
    assert L.PayloadInside(p, u) && L.PayloadInside(p, v);
  }

  // ---- one allocator ----

  /** What users see of a step: a range handed out at the alignment asked for, a range given back, or nothing. */
  datatype Visible = Quiet | Gave(range: Range, align: nat) | Took(range: Range)

  /** The specification: hand out a fresh aligned range that overlaps none handed out, or take one back. */
  ghost predicate Specified(v: iset<Range>, e: Visible, v': iset<Range>)
  {
    match e
    case Quiet => v' == v
    case Gave(r, align) =>
      align > 0 && r.start % align == 0 && r.len > 0 && v' == v + iset{r} && forall q | q in v :: q != r && Disjoint(r, q)
    case Took(r) => r in v && v' == v - iset{r}
  }

  function Shown(e: Event): Visible
  {
    match e
    case Silent => Quiet
    case HandOut(r) => Gave(r, ALIGNMENT)
    case TakeBack(r) => Took(r)
  }

  ghost function VisibleOf(c: Params, w: World, e: WholeEvent): Visible
    requires WfParams(c)
  {
    match e
    case Inner(a) => Shown(EventOf(c.g, w.sys, a))
    case Request(t, size, alignment, os) =>
      if IsSmall(c.g, size, alignment) then
        var index := T.ClassIndex(c.g.table, Normal(size));
        if index.Index? then Shown(EventOf(c.g, w.sys, Malloc(t, index.value))) else Quiet
      else if CanCall(w, t) then LargeVisible(c, w.large[w.sys.threads[t].cache.node], Normal(size), alignment, os)
      else Quiet
    case Release(t, u) =>
      if u < HEADER then Quiet
      else
        var h := HeaderSeen(w, u - HEADER);
        if h.sizeClass != 0 then Took(RangeOf(w.sys, u - HEADER))
        else if h.node < |w.large| then Took(LargeRange(w.large[h.node], u)) else Quiet
    case Write(_, _, _) => Quiet
    case Rest => Quiet
  }

  function LargeVisible(c: Params, p: L.Picture, n: nat, alignment: nat, os: Option<Addr>): Visible
  {
    if |p.bins| == S.BINS && n < S.WORD && alignment < S.WORD && c.ps < S.WORD then
      match L.AllocateStep(p, c.ps, n, alignment, os).outcome
      case Got(u, _) => Gave(Range(u, n), S.EffectiveAlignment(alignment))
      case _ => Quiet
    else Quiet
  }

  lemma SmallRefines(c: Params, w: World, a: Action, w': World)
    requires WfParams(c) && w in Sound(c) && w' in Sound(c) && SmallStep(c, w, a, w')
    ensures Specified(Held(w), Shown(EventOf(c.g, w.sys, a)), Held(w'))
  {
    StepRefines(c.g, w.sys, a);
    var e := EventOf(c.g, w.sys, a);
    ViewStepHeld(c, w, e, w');
  }

  lemma ViewStepHeld(c: Params, w: World, e: Event, w': World)
    requires w in Sound(c) && w' in Sound(c) && w'.large == w.large && AbstractStep(View(w.sys), e, View(w'.sys))
    ensures Specified(Held(w), Shown(e), Held(w'))
  {
    match e
    case Silent => assert Held(w') == Held(w);
    case HandOut(r) =>
      assert Held(w') == Held(w) + iset{r};
      forall q | q in Held(w) ensures q != r && Disjoint(r, q) {
        if q !in View(w.sys) { SmallLargeDisjoint(c, w'.sys, w'.large, r, q); }
      }
    case TakeBack(r) =>
      if LargeHas(w.large, r) { SmallLargeDisjoint(c, w.sys, w.large, r, r); }
      assert Held(w') == Held(w) - iset{r};
  }

  /** A large request of n bytes that is served adds exactly its range; the others are as they were. */
  lemma ServedView(large: seq<L.Picture>, k: nat, r: L.Result, n: nat, align: nat, spanSize: nat, large': seq<L.Picture>)
    requires k < |large| && r in L.WellServeds(large[k], n, align, spanSize) && large' == large[k := r.p]
    requires forall u | u in large[k].live :: u >= HEADER
    ensures forall q :: LargeHas(large', q) <==> LargeHas(large, q) || q == Range(r.outcome.u, n)
    ensures forall j: nat, q | HasAt(large, j, q) :: HasAt(large', j, q) && (j == k ==> q.start != r.outcome.u)
    ensures align > 0 && r.outcome.u % align == 0 && HasAt(large', k, Range(r.outcome.u, n))
  {
    var u := r.outcome.u;
    forall v | v in large[k].live ensures LargeRange(r.p, v) == LargeRange(large[k], v) {}
    assert HasAt(large', k, Range(u, n));
    forall j: nat, q | HasAt(large, j, q) ensures HasAt(large', j, q) {}
    forall j: nat, q | HasAt(large', j, q) && q != Range(u, n) ensures HasAt(large, j, q) {}
    forall q ensures LargeHas(large', q) <==> LargeHas(large, q) || q == Range(u, n) {
      if LargeHas(large, q) {
        var j: nat :| HasAt(large, j, q);
        assert HasAt(large', j, q);
      }
      if LargeHas(large', q) {
        var j: nat :| HasAt(large', j, q);
        assert q != Range(u, n) ==> HasAt(large, j, q);
      }
    }
  }

  lemma LargeMallocRefines(c: Params, w: World, k: nat, n: nat, alignment: nat, os: Option<Addr>, w': World)
    requires WfParams(c) && w in Sound(c) && w' in Sound(c) && LargeMalloc(c, w, k, n, alignment, os, w') && n > 0
    ensures Specified(Held(w), LargeVisible(c, w.large[k], n, alignment, os), Held(w'))
  {
    var p := w.large[k];
    assert NodeOk(c, w.large, k);
    var r := L.AllocateStep(p, c.ps, n, alignment, os);
    if S.GuardPasses(n, S.EffectiveAlignment(alignment)) {
      L.UnwrappedIsServed(c.limits, p, c.ps, n, alignment, os);
      if r.outcome.NoMemory? {
        assert w'.large == w.large;
      } else {
        ServedRefines(c, w, k, n, r, S.EffectiveAlignment(alignment), S.SpanSize(n, alignment, c.ps), w');
      }
    } else {
      assert w'.large == w.large;
    }
  }

  lemma ServedRefines(c: Params, w: World, k: nat, n: nat, r: L.Result, align: nat, spanSize: nat, w': World)
    requires w in Sound(c) && w' in Sound(c) && w'.sys == w.sys && k < |w.large| && n > 0
    requires r in L.WellServeds(w.large[k], n, align, spanSize) && w'.large == w.large[k := r.p]
    ensures r.outcome.Got? && Specified(Held(w), Gave(Range(r.outcome.u, n), align), Held(w'))
  {
    var got := Range(r.outcome.u, n);
    forall u | u in w.large[k].live ensures u >= HEADER { var raw := LargeHeld(c, w.large, k, u); }
    ServedView(w.large, k, r, n, align, spanSize, w'.large);
    HeldPlus(w, w', got);
    GotApart(c, w, w', k, got);
  }

  lemma HeldPlus(w: World, w': World, r: Range)
    requires w'.sys == w.sys && forall q :: LargeHas(w'.large, q) <==> LargeHas(w.large, q) || q == r
    ensures Held(w') == Held(w) + iset{r}
  {
  }

  lemma GotApart(c: Params, w: World, w': World, k: nat, got: Range)
    requires w' in Sound(c) && w'.sys == w.sys && HasAt(w'.large, k, got) && got.len > 0
    requires forall j: nat, q | HasAt(w.large, j, q) :: HasAt(w'.large, j, q) && (j == k ==> q.start != got.start)
    ensures forall q | q in Held(w) :: q != got && Disjoint(got, q)
  {
    forall q | q in Held(w) ensures q != got && Disjoint(got, q) {
      if q in View(w.sys) { SmallLargeDisjoint(c, w'.sys, w'.large, q, got); } else { ServedApart(c, w.large, w'.large, k, got, q); }
    }
  }

  lemma ServedApart(c: Params, large: seq<L.Picture>, large': seq<L.Picture>, k: nat, got: Range, q: Range)
    requires large' in LargeSides(c) && HasAt(large', k, got) && got.len > 0 && LargeHas(large, q)
    requires forall j: nat | HasAt(large, j, q) :: HasAt(large', j, q) && (j == k ==> q.start != got.start)
    ensures q != got && Disjoint(got, q)
  {
    var j: nat :| HasAt(large, j, q);
    LargeLargeDisjoint(c, large', k, got.start, j, q.start);
  }

  lemma DeallocateHeaders(p: L.Picture, limits: L.Limits, u: Addr)
    requires |p.bins| == S.BINS && L.HeaderAt(u) in p.headers
    ensures L.DeallocateStep(p, limits, u).headers == p.headers
  {
  }

  lemma OneHolder(c: Params, large: seq<L.Picture>, k: nat, u: Addr)
    requires large in LargeSides(c) && k < |large| && u in large[k].live
    ensures forall j | 0 <= j < |large| && j != k :: u !in large[j].live
  {
    var raw := LargeHeld(c, large, k, u);
    InSpanOf(large, k, raw, u - HEADER);
    forall j | 0 <= j < |large| && u in large[j].live ensures j == k {
      var raw' := LargeHeld(c, large, j, u);
      InSpanOf(large, j, raw', u - HEADER);
      OneNodesSpan(large, k, j, u - HEADER);
    }
  }

  lemma TakenView(large: seq<L.Picture>, k: nat, u: Addr, large': seq<L.Picture>)
    requires k < |large| && |large'| == |large| && (forall j | 0 <= j < |large| && j != k :: large'[j] == large[j] && u !in large[j].live)
    requires u in large[k].live && large'[k].live == large[k].live - {u} && large'[k].headers == large[k].headers
    ensures forall q :: LargeHas(large', q) <==> LargeHas(large, q) && q != LargeRange(large[k], u)
  {
    forall v ensures LargeRange(large'[k], v) == LargeRange(large[k], v) {}
    forall j: nat, q | HasAt(large, j, q) && q != LargeRange(large[k], u) ensures HasAt(large', j, q) {}
    forall j: nat, q | HasAt(large', j, q) ensures HasAt(large, j, q) && q != LargeRange(large[k], u) {}
    forall q ensures LargeHas(large', q) <==> LargeHas(large, q) && q != LargeRange(large[k], u) {
      if LargeHas(large, q) && q != LargeRange(large[k], u) {
        var j: nat :| HasAt(large, j, q);
        assert HasAt(large', j, q);
      }
      if LargeHas(large', q) {
        var j: nat :| HasAt(large', j, q);
        assert HasAt(large, j, q);
      }
    }
  }

  lemma LargeFreeRefines(c: Params, w: World, k: nat, u: Addr, w': World)
    requires WfParams(c) && w in Sound(c) && LargeFree(c, w, k, u, w')
    ensures Specified(Held(w), Took(LargeRange(w.large[k], u)), Held(w'))
  {
    assert NodeOk(c, w.large, k);
    L.DeallocateKeeps(c.limits, w.large[k], u);
    DeallocateHeaders(w.large[k], c.limits, u);
    TakenRefines(c, w, k, u, w', L.DeallocateStep(w.large[k], c.limits, u));
  }

  lemma TakenRefines(c: Params, w: World, k: nat, u: Addr, w': World, p: L.Picture)
    requires w in Sound(c) && k < |w.large| && u in w.large[k].live && w'.sys == w.sys && w'.large == w.large[k := p]
    requires p.live == w.large[k].live - {u} && p.headers == w.large[k].headers
    ensures Specified(Held(w), Took(LargeRange(w.large[k], u)), Held(w'))
  {
    OneHolder(c, w.large, k, u);
    TakenView(w.large, k, u, w'.large);
    TakenOnly(c, w, k, u);
    HeldMinus(w, w', LargeRange(w.large[k], u));
  }

  lemma HeldMinus(w: World, w': World, r: Range)
    requires w'.sys == w.sys && r !in View(w.sys) && LargeHas(w.large, r)
    requires forall q :: LargeHas(w'.large, q) <==> LargeHas(w.large, q) && q != r
    ensures r in Held(w) && Held(w') == Held(w) - iset{r}
  {
  }

  lemma TakenOnly(c: Params, w: World, k: nat, u: Addr)
    requires w in Sound(c) && k < |w.large| && u in w.large[k].live
    ensures LargeHas(w.large, LargeRange(w.large[k], u)) && LargeRange(w.large[k], u) !in View(w.sys)
  {
    var r := LargeRange(w.large[k], u);
    assert HasAt(w.large, k, r);
    if r in View(w.sys) { SmallLargeDisjoint(c, w.sys, w.large, r, r); }
  }

  /** Every step of the whole allocator, small or large, is the step of the abstract allocator that users see. */
  lemma WholeStepRefines(c: Params, w: World, e: WholeEvent, w': World)
    requires WfParams(c) && w in Sound(c) && w' in NextOf(c, w, e)
    ensures Specified(Held(w), VisibleOf(c, w, e), Held(w'))
  {
    WholeKeeps(c, w, e, w');
    match e
    case Inner(a) => SmallRefines(c, w, a, w');
    case Request(t, size, alignment, os) => RequestRefines(c, w, t, size, alignment, os, w');
    case Release(t, u) => ReleaseRefines(c, w, t, u, w');
    case _ => assert Held(w') == Held(w);
  }

  lemma RequestRefines(c: Params, w: World, t: nat, size: nat, alignment: nat, os: Option<Addr>, w': World)
    requires WfParams(c) && w in Sound(c) && w' in Sound(c) && RequestStep(c, w, t, size, alignment, os, w')
    ensures Specified(Held(w), VisibleOf(c, w, Request(t, size, alignment, os)), Held(w'))
  {
    if IsSmall(c.g, size, alignment) {
      SmallRefines(c, w, Malloc(t, T.ClassIndex(c.g.table, Normal(size)).value), w');
    } else {
      LargeMallocRefines(c, w, w.sys.threads[t].cache.node, Normal(size), alignment, os, w');
    }
  }

  lemma ReleaseRefines(c: Params, w: World, t: nat, u: Addr, w': World)
    requires WfParams(c) && w in Sound(c) && w' in Sound(c) && ReleaseStep(c, w, t, u, w')
    ensures Specified(Held(w), VisibleOf(c, w, Release(t, u)), Held(w'))
  {
    var h := HeaderSeen(w, u - HEADER);
    ReleaseVisible(c, w, t, u, h);
    if h.sizeClass != 0 { SmallRefines(c, w, Free(t, u - HEADER), w'); } else { LargeFreeRefines(c, w, h.node, u, w'); }
  }

  lemma ReleaseVisible(c: Params, w: World, t: nat, u: Addr, h: Seen)
    requires WfParams(c) && u >= HEADER && h == HeaderSeen(w, u - HEADER)
    ensures h.sizeClass != 0 ==> VisibleOf(c, w, Release(t, u)) == Took(RangeOf(w.sys, u - HEADER)) == Shown(EventOf(c.g, w.sys, Free(t, u - HEADER)))
    ensures h.sizeClass == 0 && h.node < |w.large| ==> VisibleOf(c, w, Release(t, u)) == Took(LargeRange(w.large[h.node], u))
  {
  }

  // ---- runs ----

  ghost predicate IsStart(c: Params, w: World)
  {
    w.sys == Init(c.g) && |w.large| == c.g.nodes && forall k | 0 <= k < |w.large| :: w.large[k] == L.NewAllocator(k)
  }

  ghost predicate IsWholeRun(c: Params, ws: seq<World>, es: seq<WholeEvent>)
    requires WfParams(c)
  {
    |ws| == |es| + 1 && IsStart(c, ws[0]) && forall i {:trigger LeadsOn(c, ws, es, i)} | 0 <= i < |es| :: LeadsOn(c, ws, es, i)
  }

  ghost predicate LeadsOn(c: Params, ws: seq<World>, es: seq<WholeEvent>, i: nat)
    requires WfParams(c) && i < |es| && |ws| == |es| + 1
  {
    ws[i + 1] in NextOf(c, ws[i], es[i])
  }

  lemma StartIsSound(c: Params, w: World)
    requires WfParams(c) && IsStart(c, w)
    ensures w in Sound(c)
  {
    InitIsGood(c.g);
    forall id ensures ListAt(Init(c.g), id) == [] {}
    forall k | 0 <= k < |w.large| ensures NodeOk(c, w.large, k) { L.NewIsAccounted(c.limits, k); }
  }

  lemma {:induction false} WholeRunSound(c: Params, ws: seq<World>, es: seq<WholeEvent>, i: nat)
    requires WfParams(c) && IsWholeRun(c, ws, es) && i <= |es|
    ensures ws[i] in Sound(c)
  {
    if i == 0 {
      StartIsSound(c, ws[0]);
    } else {
      WholeRunSound(c, ws, es, i - 1);
      NextIsSound(c, ws, es, i);
    }
  }

  lemma NextIsSound(c: Params, ws: seq<World>, es: seq<WholeEvent>, i: nat)
    requires WfParams(c) && IsWholeRun(c, ws, es) && 0 < i <= |es| && ws[i - 1] in Sound(c)
    ensures ws[i] in Sound(c)
  {
    assert LeadsOn(c, ws, es, i - 1);
    WholeKeeps(c, ws[i - 1], es[i - 1], ws[i]);
  }

  /** Every run of the whole allocator is a run of the abstract one, from nothing handed out, with the events
      users see. */
  lemma WholeRunRefines(c: Params, ws: seq<World>, es: seq<WholeEvent>, i: nat)
    requires WfParams(c) && IsWholeRun(c, ws, es) && i < |es|
    ensures Held(ws[0]) == iset{}
    ensures Specified(Held(ws[i]), VisibleOf(c, ws[i], es[i]), Held(ws[i + 1]))
  {
    RunStartsEmpty(c, ws, es);
    WholeRunSound(c, ws, es, i);
    assert LeadsOn(c, ws, es, i);
    WholeStepRefines(c, ws[i], es[i], ws[i + 1]);
  }

  lemma RunStartsEmpty(c: Params, ws: seq<World>, es: seq<WholeEvent>)
    requires WfParams(c) && IsWholeRun(c, ws, es)
    ensures Held(ws[0]) == iset{}
  {
    forall r ensures r !in Held(ws[0]) {
      assert forall k | 0 <= k < |ws[0].large| :: ws[0].large[k].live == map[];
    }
  }

  // ---- what is in users' ranges ----

  function Stored(e: WholeEvent, x: Addr, before: Addr): Addr
  {
    if e.Write? && e.at == x then e.value else before
  }

  function LastStored(es: seq<WholeEvent>, i: nat, j: nat, x: Addr, before: Addr): Addr
    requires j <= |es|
  {
    if j <= i then before else Stored(es[j - 1], x, LastStored(es, i, j - 1, x, before))
  }

  /** x is in no slab, nor in a region that the step may map one at. */
  ghost predicate OffSlabs(s: Sys, a: Action, x: Addr)
  {
    !InSlab(s, x) && (a.RunSc? && a.os.Some? ==> x < a.os.value || a.os.value + SLAB_SIZE <= x)
  }

  /** The blocks a small step links lie in slabs, or in the one it maps. */
  lemma LinksInSlabs(g: Config, s: Sys, a: Action, b: Addr, x: Addr)
    requires s in Good(g) && Enabled(g, s, a) && b in Written(g, s, a) && OffSlabs(s, a, x)
    ensures x != Link(b)
  {
    WrittenWhere(g, s, a, b);
    if b in s.place { LinkInSlab(g, s, b); } else { BlockBounds(a.os.value, SizeOf(g, s.threads[a.t].pc.key), b); }
  }

  lemma WrittenWhere(g: Config, s: Sys, a: Action, b: Addr)
    requires s in Good(g) && Enabled(g, s, a) && b in Written(g, s, a)
    ensures b in s.place || (a.RunSc? && a.os.Some? && IsBase(a.os.value) && IsBlock(a.os.value, SizeOf(g, s.threads[a.t].pc.key), b))
  {
    match a
    case Free(t, f) => assert f in Holds(s, Live);
    case RunBin(t) => HandFacts(g, s, t, b);
    case Settle(t) => ListedPlace(g, s, BinList(s.threads[t].pc.key), b);
    case RunSc(t, os) => if OpBlocks(s.threads[t].pc.op) != [] { HandFacts(g, s, t, b); }
    case _ =>
  }

  lemma StepWordsOff(g: Config, s: Sys, w: map<Addr, Addr>, a: Action, x: Addr)
    requires MemSys(s, w) in Linked(g) && Enabled(g, s, a) && OffSlabs(s, a, x) && x >= HEADER
    ensures Load(StepWords(g, s, w, a), x) == Load(w, x)
  {
    WritesOnly(g, s, w, a);
    var b := x - HEADER;
    if b in Written(g, s, a) { LinksInSlabs(g, s, a, b, x); }
    assert Load(StepWords(g, s, w, a), Link(b)) == Load(w, Link(b));
  }

  lemma SpanOffSlabs(s: Sys, large: seq<L.Picture>, a: Action, x: Addr)
    requires large in ClearOf(s) && MapsClear(large, a) && InSomeSpan(large, x)
    ensures OffSlabs(s, a, x)
  {
    var k: nat :| InSpan(large, k, x);
    SpanNotSlab(s, large, k, x);
    var r: Addr :| r in large[k].mapped && r <= x < r + large[k].mapped[r];
    var size := large[k].mapped[r];
    assert a.RunSc? && a.os.Some? ==> L.SpansApart(r, size, a.os.value, SLAB_SIZE);
  }

  /** A small step leaves what is in any range held before and after. */
  lemma SmallStepKeepsHeld(c: Params, w: World, a: Action, w': World, r: Range, x: Addr)
    requires WfParams(c) && w in Sound(c) && w' in Sound(c) && SmallStep(c, w, a, w')
    requires r in Held(w) && r in Held(w') && r.start <= x < r.start + r.len
    ensures Load(w'.words, x) == Load(w.words, x)
  {
    if LargeHas(w.large, r) { SmallStepKeepsLarge(c, w, a, w', r, x); } else { SmallStepKeepsSmall(c, w, a, w', r, x); }
  }

  lemma SmallStepKeepsLarge(c: Params, w: World, a: Action, w': World, r: Range, x: Addr)
    requires WfParams(c) && w in Sound(c) && w' in Sound(c) && SmallStep(c, w, a, w')
    requires LargeHas(w.large, r) && r.start <= x < r.start + r.len
    ensures Load(w'.words, x) == Load(w.words, x)
  {
    LargeByte(c, w, r, x);
    LargeByte(c, w', r, x);
    SpanOffSlabs(w.sys, w.large, a, x);
    StepWordsOff(c.g, w.sys, w.words, a, x);
  }

  lemma SmallStepKeepsSmall(c: Params, w: World, a: Action, w': World, r: Range, x: Addr)
    requires WfParams(c) && w in Sound(c) && SmallStep(c, w, a, w')
    requires r in View(w.sys) && r in View(w'.sys) && r.start <= x < r.start + r.len
    ensures Load(w'.words, x) == Load(w.words, x)
  {
    var b :| b in w.sys.live && r == RangeOf(w.sys, b);
    ViewHas(w'.sys, r, b);
    StepKeepsPayload(c.g, w.sys, w.words, a, w'.words, b, x);
  }

  lemma ViewHas(s: Sys, r: Range, b: Addr)
    requires r in View(s) && r.start == Link(b)
    ensures b in s.live
  {
  }

  /** And so does a large step. */
  lemma LargeStepKeepsHeld(c: Params, w: World, w': World, r: Range, x: Addr)
    requires w in Sound(c) && w' in Sound(c) && w'.sys == w.sys && MappedWordsStay(w, w')
    requires r in Held(w) && r in Held(w') && r.start <= x < r.start + r.len
    ensures Load(w'.words, x) == Load(w.words, x)
  {
    if r in View(w.sys) {
      var j, p := SmallRange(c.g, w.sys, r);
      assert InSystem(w.sys, j, p) && InSlab(w.sys, x);
    } else {
      LargeByte(c, w, r, x);
      LargeByte(c, w', r, x);
    }
  }

  lemma OnlyHoldersStore(c: Params, w: World, e: WholeEvent, w': World, r: Range, x: Addr)
    requires WfParams(c) && w in Sound(c) && w' in NextOf(c, w, e)
    requires r in Held(w) && r in Held(w') && r.start <= x < r.start + r.len
    ensures Load(w'.words, x) == Stored(e, x, Load(w.words, x))
  {
    WholeKeeps(c, w, e, w');
    match e
    case Inner(a) => SmallStepKeepsHeld(c, w, a, w', r, x);
    case Request(t, size, alignment, os) => RequestKeepsHeld(c, w, t, size, alignment, os, w', r, x);
    case Release(t, u) => ReleaseKeepsHeld(c, w, t, u, w', r, x);
    case Write(_, _, _) =>
    case Rest => LargeStepKeepsHeld(c, w, w', r, x);
  }

  lemma RequestKeepsHeld(c: Params, w: World, t: nat, size: nat, alignment: nat, os: Option<Addr>, w': World, r: Range, x: Addr)
    requires WfParams(c) && w in Sound(c) && w' in Sound(c) && RequestStep(c, w, t, size, alignment, os, w')
    requires r in Held(w) && r in Held(w') && r.start <= x < r.start + r.len
    ensures Load(w'.words, x) == Load(w.words, x)
  {
    if IsSmall(c.g, size, alignment) {
      SmallStepKeepsHeld(c, w, Malloc(t, T.ClassIndex(c.g.table, Normal(size)).value), w', r, x);
    } else {
      LargeStepKeepsHeld(c, w, w', r, x);
    }
  }

  lemma ReleaseKeepsHeld(c: Params, w: World, t: nat, u: Addr, w': World, r: Range, x: Addr)
    requires WfParams(c) && w in Sound(c) && w' in Sound(c) && ReleaseStep(c, w, t, u, w')
    requires r in Held(w) && r in Held(w') && r.start <= x < r.start + r.len
    ensures Load(w'.words, x) == Load(w.words, x)
  {
    if HeaderSeen(w, u - HEADER).sizeClass != 0 { SmallStepKeepsHeld(c, w, Free(t, u - HEADER), w', r, x); } else { LargeStepKeepsHeld(c, w, w', r, x); }
  }

  lemma OnlyHoldersStoreAt(c: Params, ws: seq<World>, es: seq<WholeEvent>, j: nat, r: Range, x: Addr)
    requires WfParams(c) && IsWholeRun(c, ws, es) && j < |es|
    requires r in Held(ws[j]) && r in Held(ws[j + 1]) && r.start <= x < r.start + r.len
    ensures Load(ws[j + 1].words, x) == Stored(es[j], x, Load(ws[j].words, x))
  {
    WholeRunSound(c, ws, es, j);
    assert LeadsOn(c, ws, es, j);
    OnlyHoldersStore(c, ws[j], es[j], ws[j + 1], r, x);
  }

  /** While a range is a user's, small or large, every byte of it reads what users last wrote there. */
  lemma {:induction false} HeldRangesKeepTheirBytes(c: Params, ws: seq<World>, es: seq<WholeEvent>, i: nat, j: nat, r: Range, x: Addr)
    requires WfParams(c) && IsWholeRun(c, ws, es) && i <= j <= |es|
    requires (forall n | i <= n <= j :: r in Held(ws[n])) && r.start <= x < r.start + r.len
    ensures Load(ws[j].words, x) == LastStored(es, i, j, x, Load(ws[i].words, x))
    decreases j
  {
    if i < j {
      HeldRangesKeepTheirBytes(c, ws, es, i, j - 1, r, x);
      OnlyHoldersStoreAt(c, ws, es, j - 1, r, x);
    }
  }
}
