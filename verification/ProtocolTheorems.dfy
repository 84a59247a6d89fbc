/** What holds in every reachable state and across every step of the concurrent allocator. */
module ProtocolTheorems {
  import opened Arithmetic
  import opened Lists
  import opened Layout
  import opened SizeClassSpec
  import opened ForeignSpec
  import opened Protocol
  import opened ProtocolInvariant
  import opened ProtocolSteps
  import opened ProtocolTransfers
  import opened ProtocolClasses
  import T = SizeClassTable

  ghost predicate Reachable(g: Config, s: Sys)
  {
    WfConfig(g) && exists run :: IsRun(g, Init(g), run, s)
  }

  lemma ReachableIsGood(g: Config, s: Sys)
    requires Reachable(g, s)
    ensures s in Good(g)
  {
    var run :| IsRun(g, Init(g), run, s);
    InitIsGood(g);
    RunKeeps(g, Init(g), run, s);
  }

  /** The repository's table makes a configuration, for any number of nodes and threads. */
  lemma RepositoryIsConfigured(nodes: nat, threads: nat)
    ensures var g := Config(T.REPOSITORY, T.ClassSizes(T.REPOSITORY), nodes, threads);
      WfConfig(g) && Reachable(g, Init(g))
  {
    var g := Config(T.REPOSITORY, T.ClassSizes(T.REPOSITORY), nodes, threads);
    T.RepositoryTable();
    forall i | 0 <= i < |g.sizes| ensures Capacity(g.sizes[i]) > 0 {
      T.RoundingIsIdempotent(g.table, i);
      TableSizesFit(g.sizes[i]);
    }
    assert IsRun(g, Init(g), [], Init(g));
  }

  // ---- every block in exactly one place ----

  ghost predicate AtOnePlace(s: Sys, b: Addr)
  {
    exists p {:trigger b in Holds(s, p)} :: b in Holds(s, p) && forall q :: b in Holds(s, q) ==> q == p
  }

  /** Whatever the interleaving, each block of each mapped slab is live, or on a free list, or in one
      thread's cache bin, or in one foreign bin, or in one thread's hand: never lost, never in two. */
  lemma EveryBlockAtOnePlace(g: Config, s: Sys, k: Key, p: Addr, b: Addr)
    requires Reachable(g, s) && InSystem(s, k, p) && IsBlock(p, SizeOf(g, k), b)
    ensures AtOnePlace(s, b)
    ensures b in Holds(s, OnFreeList(k)) <==> b in FreeOf(s.cls[k].sc, p)
    ensures forall j | j != k :: b !in Holds(s, OnFreeList(j))
  {
    ReachableIsGood(g, s);
    assert b in s.place;
    assert b in Holds(s, s.place[b]);
    KeyFacts(g, s, k);
    FreeBlockOwner(s.cls[k].sc, SizeOf(g, k), p, b);
    forall j | j != k ensures b !in Holds(s, OnFreeList(j)) {
      if b in Holds(s, OnFreeList(j)) {
        var i, q := PlacedHasSlab(g, s, b);
        SlabUnique(g, s, b, i, q, k, p);
      }
    }
  }

  /** And each list that holds it holds it once. */
  lemma ListsHaveNoDuplicates(g: Config, s: Sys)
    requires Reachable(g, s)
    ensures forall k, p | InSystem(s, k, p) :: NoDup(FreeOf(s.cls[k].sc, p))
    ensures forall k | k in s.cls :: NoDup(s.cls[k].bin.list)
    ensures forall t | 0 <= t < |s.threads| :: NoDup(HandOf(s.threads[t].pc))
    ensures forall t, c | 0 <= t < |s.threads| && s.threads[t].cache.Cache? && 0 <= c < |s.threads[t].cache.bins|
              :: NoDup(s.threads[t].cache.bins[c].list)
  {
    ReachableIsGood(g, s);
    forall k, p | InSystem(s, k, p) ensures NoDup(FreeOf(s.cls[k].sc, p)) { SlabFacts(g, s, k, p); }
    forall k | k in s.cls ensures NoDup(s.cls[k].bin.list) { KeyFacts(g, s, k); }
    forall t | 0 <= t < |s.threads| ensures NoDup(HandOf(s.threads[t].pc)) && CacheOk(g, s.threads[t].cache) { ThreadFacts(g, s, t); }
    forall t, c | 0 <= t < |s.threads| && s.threads[t].cache.Cache? && 0 <= c < |s.threads[t].cache.bins|
      ensures NoDup(s.threads[t].cache.bins[c].list)
    {
      assert CacheOk(g, s.threads[t].cache);
      assert CacheBinOk(g, Key(s.threads[t].cache.node, c), s.threads[t].cache.bins[c]);
    }
  }

  // ---- headers, routing and mapped slabs ----

  /** A block that is not on a free list still carries the slab it was cut from, which is mapped, and once
      stamped its node and class too; so wherever it is, its header leads back where it came from. */
  lemma HeadersStayIntact(g: Config, s: Sys, b: Addr, p: Place) returns (k: Key)
    requires Reachable(g, s) && b in Holds(s, p) && !p.OnFreeList?
    ensures Carved(g, s, b, k)
    ensures (p.InHand? && PcOf(s, p.thread).Stamp?) || Stamped(g, s, b, k)
    ensures p.InForeignBin? ==> k == p.key
    ensures p.InCache? ==> CacheOf(s, p.thread).Cache? && k == Key(CacheOf(s, p.thread).node, p.cls)
  {
    ReachableIsGood(g, s);
    assert b in s.place && s.place[b] == p;
    assert HomeOk(g, s, b, s.place[b]);
    match p
    case Live => k := KeyOf(g, s.hdr[b]);
    case InCache(t, c) => k := Key(CacheOf(s, t).node, c);
    case InForeignBin(j) => k := j;
    case InHand(t) => k := PcOf(s, t).key;
  }

  /** No thread ever meets an invalid header, an unmapped slab or a counter underflow. */
  lemma NoThreadFaults(g: Config, s: Sys, t: nat)
    requires Reachable(g, s) && t < |s.threads|
    ensures !s.threads[t].pc.Faulted?
  {
    ReachableIsGood(g, s);
    ThreadFacts(g, s, t);
  }

  /** Freeing a live block routes it to its own arena and class, however far it has travelled. */
  lemma FreeRoutesHome(g: Config, s: Sys, arena: nat, b: Addr, cont: Cont)
    requires Reachable(g, s) && b in s.live
    ensures b in s.hdr && InSystem(s, KeyOf(g, s.hdr[b]), s.hdr[b].slab)
    ensures Route(g, arena, s.hdr[b], b, cont) == RouteTo(g, arena, KeyOf(g, s.hdr[b]), b, cont)
  {
    ReachableIsGood(g, s);
    var k := LiveBlock(g, s, b);
    StampedRoutes(g, s, b, k);
  }

  /** Outside the size-class critical section nothing happens to a class's slabs. */
  lemma SlabsChangeOnlyUnderLock(g: Config, s: Sys, a: Action, k: Key)
    requires WfConfig(g) && Enabled(g, s, a) && !a.RunSc? && k in s.cls
    ensures k in Apply(g, s, a).cls && SameClass(s.cls[k], Apply(g, s, a).cls[k])
  {
    if a.LockSc? || a.LockBin? || a.RunBin? || a.Settle? { LocksAndBinsKeepSlabs(g, s, a, k); } else { OthersKeepClasses(g, s, a); }
  }

  ghost predicate SameClass(ks: KeyState, ks': KeyState)
  {
    ks'.sc == ks.sc && ks'.peak == ks.peak
  }

  lemma LocksAndBinsKeepSlabs(g: Config, s: Sys, a: Action, k: Key)
    requires WfConfig(g) && Enabled(g, s, a) && k in s.cls && (a.LockSc? || a.LockBin? || a.RunBin? || a.Settle?)
    ensures k in Apply(g, s, a).cls && SameClass(s.cls[k], Apply(g, s, a).cls[k])
  {
    match a
    case RunBin(t) => RunBinKeepsSlabs(g, s, t, k);
    case Settle(t) => SettleKeepsSlabs(g, s, t, k);
    case _ =>
  }

  lemma RunBinKeepsSlabs(g: Config, s: Sys, t: nat, k: Key)
    requires WfConfig(g) && Enabled(g, s, RunBin(t)) && k in s.cls
    ensures k in Apply(g, s, RunBin(t)).cls && SameClass(s.cls[k], Apply(g, s, RunBin(t)).cls[k])
  {
  }

  lemma SettleKeepsSlabs(g: Config, s: Sys, t: nat, k: Key)
    requires WfConfig(g) && Enabled(g, s, Settle(t)) && k in s.cls
    ensures k in Apply(g, s, Settle(t)).cls && SameClass(s.cls[k], Apply(g, s, Settle(t)).cls[k])
  {
  }

  lemma OthersKeepClasses(g: Config, s: Sys, a: Action)
    requires WfConfig(g) && Enabled(g, s, a)
    requires !a.RunSc? && !a.LockSc? && !a.LockBin? && !a.RunBin? && !a.Settle?
    ensures Apply(g, s, a).cls == s.cls
  {
    match a
    case FlushNext(t) =>
    case Malloc(t, c) =>
    case Free(t, b) =>
    case _ =>
  }

  /** A slab is unmapped only when every one of its blocks is on its free list, counting the ones the
      unmapping thread is just putting there. No block of it is anywhere afterwards. */
  lemma UnmappedOnlyWhenAllFree(g: Config, s: Sys, a: Action, k: Key, p: Addr)
    requires Reachable(g, s) && Enabled(g, s, a)
    requires InSystem(s, k, p) && !InSystem(Apply(g, s, a), k, p)
    ensures a.RunSc?
    ensures forall b | IsBlock(p, SizeOf(g, k), b) :: b in FreeOf(s.cls[k].sc, p) || b in HandOf(s.threads[a.t].pc)
    ensures forall b, q | IsBlock(p, SizeOf(g, k), b) :: b !in Holds(Apply(g, s, a), q)
  {
    ReachableIsGood(g, s);
    if !a.RunSc? { SlabsChangeOnlyUnderLock(g, s, a, k); }
    var s' := Apply(g, s, a);
    StepKeeps(g, s, a);
    OnlyFreesUnmap(g, s, a, k, p);
    forall b, q | IsBlock(p, SizeOf(g, k), b) ensures b !in Holds(s', q) {
      if b in Holds(s', q) {
        assert b in s'.place;
        UnmappedElsewhere(g, s, a, k, p, b);
      }
    }
  }

  lemma OnlyFreesUnmap(g: Config, s: Sys, a: Action, k: Key, p: Addr)
    requires s in Good(g) && WfConfig(g) && Enabled(g, s, a) && a.RunSc?
    requires InSystem(s, k, p) && !InSystem(Apply(g, s, a), k, p)
    ensures s.threads[a.t].pc.key == k && OpBlocks(s.threads[a.t].pc.op) != []
    ensures forall b | IsBlock(p, SizeOf(g, k), b) :: b in FreeOf(s.cls[k].sc, p) || b in HandOf(s.threads[a.t].pc)
  {
    var op := s.threads[a.t].pc.op;
    var j := s.threads[a.t].pc.key;
    if op.FreeOne? || op.FreeMany? {
      var sc := FreeResultSlabs(g, s, a.t, a.os, j, op);
      UnmappedIsAllFree(g, s, a.t, k, op, sc, p);
    } else {
      GrowOnlyAdds(g, s, a, j, op);
    }
  }

  /** The slabs after a free step: those of the batch specification in its class, untouched in the others. */
  lemma FreeResultSlabs(g: Config, s: Sys, t: nat, os: Option<Addr>, k: Key, op: ScOp) returns (sc: ClassState)
    requires s in Good(g) && WfConfig(g) && Enabled(g, s, RunSc(t, os))
    requires s.threads[t].pc == InSc(k, op) && (op.FreeOne? || op.FreeMany?)
    ensures forall b | b in OpBlocks(op) :: Owner(Owners(s), b) in s.cls[k].sc.free
    ensures sc == FreeBatch(s.cls[k].sc, SizeOf(g, k), Owners(s), OpBlocks(op))
    ensures BatchOk(s.cls[k].sc, SizeOf(g, k), Owners(s), OpBlocks(op)) && Ok(s.cls[k].sc, SizeOf(g, k))
    ensures Apply(g, s, RunSc(t, os)).cls.Keys == s.cls.Keys && Apply(g, s, RunSc(t, os)).cls[k].sc == sc
    ensures forall j | j in s.cls && j != k :: Apply(g, s, RunSc(t, os)).cls[j] == s.cls[j]
  {
    KeyFacts(g, s, k);
    GiveBackGives(g, s, t, k, op);
    sc := FreeBatch(s.cls[k].sc, SizeOf(g, k), Owners(s), OpBlocks(op));
    RunScIsGiveBack(g, s, t, os, k, op);
    GivesClasses(g, s, Apply(g, s, RunSc(t, os)), t, k, OpBlocks(op), sc, op.cont, Peak(g, k, s.cls[k].(scLock := None), sc));
  }

  lemma RunScIsGiveBack(g: Config, s: Sys, t: nat, os: Option<Addr>, k: Key, op: ScOp)
    requires WfConfig(g) && Enabled(g, s, RunSc(t, os)) && s.threads[t].pc == InSc(k, op) && (op.FreeOne? || op.FreeMany?)
    ensures Apply(g, s, RunSc(t, os)) == GiveBack(g, s, t, OpBlocks(op), op.FreeOne?, op.cont)
  {
  }

  lemma GivesClasses(g: Config, s: Sys, s': Sys, t: nat, k: Key, blocks: seq<Addr>, sc: ClassState, cont: Cont, peak: int)
    requires Gives(g, s, s', t, k, blocks, sc, cont, peak)
    ensures s'.cls.Keys == s.cls.Keys && s'.cls[k].sc == sc && BatchOk(s.cls[k].sc, SizeOf(g, k), Owners(s), blocks)
    ensures forall j | j in s.cls && j != k :: s'.cls[j] == s.cls[j]
  {
  }

  lemma UnmappedIsAllFree(g: Config, s: Sys, t: nat, k: Key, op: ScOp, sc: ClassState, p: Addr)
    requires InSystem(s, k, p) && p !in sc.slabs && (op.FreeOne? || op.FreeMany?)
    requires Ok(s.cls[k].sc, SizeOf(g, k)) && BatchOk(s.cls[k].sc, SizeOf(g, k), Owners(s), OpBlocks(op))
    requires forall b | b in OpBlocks(op) :: Owner(Owners(s), b) in s.cls[k].sc.free
    requires sc == FreeBatch(s.cls[k].sc, SizeOf(g, k), Owners(s), OpBlocks(op))
    ensures OpBlocks(op) != []
    ensures forall b | IsBlock(p, SizeOf(g, k), b) :: b in FreeOf(s.cls[k].sc, p) || b in OpBlocks(op)
  {
    var c, size := s.cls[k].sc, SizeOf(g, k);
    FreeBatchProperties(c, size, Owners(s), OpBlocks(op));
    forall b | IsBlock(p, size, b) ensures b in FreeOf(c, p) || b in OpBlocks(op) { FreeBlockOwner(c, size, p, b); }
  }

  lemma GrowOnlyAdds(g: Config, s: Sys, a: Action, j: Key, op: ScOp)
    requires s in Good(g) && WfConfig(g) && Enabled(g, s, a) && a.RunSc?
    requires s.threads[a.t].pc == InSc(j, op) && !op.FreeOne? && !op.FreeMany?
    ensures forall k, p | InSystem(s, k, p) :: InSystem(Apply(g, s, a), k, p)
  {
    KeyFacts(g, s, j);
    var c, size := s.cls[j].sc, SizeOf(g, j);
    AllocatedSlabs(g, s, j, a.os);
    match op
    case Plain => TakeOnlyAdds(g, s, a.t, j, Allocate(c, size, a.os), Idle);
    case Grow => TakeOnlyAdds(g, s, a.t, j, Allocate(c, size, a.os), Idle);
    case Probe1 => TakeOnlyAdds(g, s, a.t, j, AllocateExisting(c), WantBin(j, Drain));
    case Probe2 => TakeOnlyAdds(g, s, a.t, j, AllocateExisting(c), WantSc(j, ScOp.Grow));
  }

  lemma AllocatedSlabs(g: Config, s: Sys, k: Key, os: Option<Addr>)
    requires s in Good(g) && k in s.cls && FreshRegion(s, os)
    ensures Capacity(SizeOf(g, k)) > 0
    ensures forall p | p in s.cls[k].sc.slabs :: p in AllocateExisting(s.cls[k].sc).state.slabs
    ensures forall p | p in s.cls[k].sc.slabs :: p in Allocate(s.cls[k].sc, SizeOf(g, k), os).state.slabs
  {
    KeyFacts(g, s, k);
    FreshForClass(s, k, os);
    AllocateExistingProperties(s.cls[k].sc, SizeOf(g, k));
    AllocateProperties(s.cls[k].sc, SizeOf(g, k), os);
  }

  lemma FreshForClass(s: Sys, k: Key, os: Option<Addr>)
    requires k in s.cls && FreshRegion(s, os)
    ensures FreshBase(s.cls[k].sc, os)
  {
    forall p | p in s.cls[k].sc.slabs && os.Some? ensures Apart(p, os.value) { assert InSystem(s, k, p); }
  }

  lemma TakeOnlyAdds(g: Config, s: Sys, t: nat, j: Key, r: Taken, otherwise: Pc)
    requires t < |s.threads| && s.threads[t].pc.InSc? && s.threads[t].pc.key == j && j in s.cls
    requires forall p | p in s.cls[j].sc.slabs :: p in r.state.slabs
    ensures forall k, p | InSystem(s, k, p) :: InSystem(TakeBlock(g, s, t, r, otherwise), k, p)
  {
  }

  lemma UnmappedElsewhere(g: Config, s: Sys, a: Action, k: Key, p: Addr, b: Addr)
    requires s in Good(g) && WfConfig(g) && Enabled(g, s, a) && a.RunSc? && Apply(g, s, a) in Good(g)
    requires InSystem(s, k, p) && !InSystem(Apply(g, s, a), k, p) && IsBlock(p, SizeOf(g, k), b)
    ensures b !in Apply(g, s, a).place
  {
    var s' := Apply(g, s, a);
    if b in s'.place {
      var j, q := PlacedHasSlab(g, s', b);
      FreesAddNoSlab(g, s, a, k, p, j, q);
      SlabUnique(g, s, b, k, p, j, q);
    }
  }

  lemma FreesAddNoSlab(g: Config, s: Sys, a: Action, k: Key, p: Addr, j: Key, q: Addr)
    requires s in Good(g) && WfConfig(g) && Enabled(g, s, a) && a.RunSc?
    requires InSystem(s, k, p) && !InSystem(Apply(g, s, a), k, p) && InSystem(Apply(g, s, a), j, q)
    ensures InSystem(s, j, q)
  {
    var op := s.threads[a.t].pc.op;
    OnlyFreesUnmap(g, s, a, k, p);
    var sc := FreeResultSlabs(g, s, a.t, a.os, k, op);
    FreeBatchProperties(s.cls[k].sc, SizeOf(g, k), Owners(s), OpBlocks(op));
  }

  /** A block that is freed reaches the free list of the very slab it came from, or goes away with that slab
      once all of the slab's blocks are free. */
  lemma FreedReachesItsSlab(g: Config, s: Sys, t: nat, os: Option<Addr>, b: Addr)
    requires Reachable(g, s) && Enabled(g, s, RunSc(t, os)) && b in OpBlocks(s.threads[t].pc.op)
    ensures b in s.hdr && InSystem(s, s.threads[t].pc.key, s.hdr[b].slab)
    ensures IsBlock(s.hdr[b].slab, SizeOf(g, s.threads[t].pc.key), b)
    ensures var k, s' := s.threads[t].pc.key, Apply(g, s, RunSc(t, os));
      if InSystem(s', k, s.hdr[b].slab) then b in FreeOf(s'.cls[k].sc, s.hdr[b].slab)
      else forall x | IsBlock(s.hdr[b].slab, SizeOf(g, k), x) :: x in FreeOf(s.cls[k].sc, s.hdr[b].slab) || x in OpBlocks(s.threads[t].pc.op)
  {
    ReachableIsGood(g, s);
    var k, op := s.threads[t].pc.key, s.threads[t].pc.op;
    HandFacts(g, s, t, b);
    var sc := FreeResultSlabs(g, s, t, os, k, op);
    var p := s.hdr[b].slab;
    FreeBatchProperties(s.cls[k].sc, SizeOf(g, k), Owners(s), OpBlocks(op));
    if p in sc.slabs { FreeBlockOwner(sc, SizeOf(g, k), p, b); } else { UnmappedIsAllFree(g, s, t, k, op, sc, p); }
  }

  // ---- live ranges: an abstract allocator ----

  /** What the user sees: the byte ranges handed out. */
  datatype Range = Range(start: Addr, len: nat)

  ghost function View(s: Sys): iset<Range>
  {
    iset b | b in s.live :: RangeOf(s, b)
  }

  function RangeOf(s: Sys, b: Addr): Range
  {
    Range(Link(b), HdrOf(s, b).size)
  }

  predicate Disjoint(r: Range, q: Range)
  {
    r.start + r.len <= q.start || q.start + q.len <= r.start
  }

  /** What the user can see of a step. */
  datatype Event = Silent | HandOut(range: Range) | TakeBack(range: Range)

  /** A cache hit or a stamped block hands out the class's size, a free takes back its block's range, and
      nothing else is visible. */
  function EventOf(g: Config, s: Sys, a: Action): Event
  {
    match a
    case Malloc(t, c) =>
      var cache := CacheOf(s, t);
      if cache.Cache? && c < |cache.bins| && cache.use && cache.bins[c].list != []
      then HandOut(Range(Link(cache.bins[c].list[0]), SizeOf(g, Key(cache.node, c)))) else Silent
    case StampBlock(t) =>
      var pc := PcOf(s, t);
      if pc.Stamp? then HandOut(Range(Link(pc.block), SizeOf(g, pc.key))) else Silent
    case Free(t, b) => TakeBack(RangeOf(s, b))
    case _ => Silent
  }

  /** The specification: hand out a fresh aligned range that overlaps none handed out, or take one back. */
  ghost predicate AbstractStep(v: iset<Range>, e: Event, v': iset<Range>)
  {
    match e
    case Silent => v' == v
    case HandOut(r) => v' == v + iset{r} && r.start % ALIGNMENT == 0 && r.len > 0 && forall q | q in v :: q != r && Disjoint(r, q)
    case TakeBack(r) => r in v && v' == v - iset{r}
  }

  /** Two live blocks never share a byte; each is aligned and lies inside its mapped slab. */
  lemma LiveBlocksDisjoint(g: Config, s: Sys, b: Addr, c: Addr)
    requires s in Good(g) && b in s.live && c in s.live && b != c
    ensures Disjoint(RangeOf(s, b), RangeOf(s, c))
  {
    var k := LiveBlock(g, s, b);
    var j := LiveBlock(g, s, c);
    BlocksNeverOverlap(g, s, b, k, s.hdr[b].slab, c, j, s.hdr[c].slab);
  }

  lemma BlocksNeverOverlap(g: Config, s: Sys, b: Addr, k: Key, p: Addr, c: Addr, j: Key, q: Addr)
    requires s in Good(g) && b != c && InSystem(s, k, p) && InSystem(s, j, q)
    requires IsBlock(p, SizeOf(g, k), b) && IsBlock(q, SizeOf(g, j), c)
    ensures b + Stride(SizeOf(g, k)) <= c || c + Stride(SizeOf(g, j)) <= b
  {
    SlabFacts(g, s, k, p);
    SlabFacts(g, s, j, q);
    if k == j && p == q {
      BlocksApart(p, SizeOf(g, k), b, c);
    } else {
      BlockBounds(p, SizeOf(g, k), b);
      BlockBounds(q, SizeOf(g, j), c);
    }
  }

  lemma LiveBlockFits(g: Config, s: Sys, b: Addr)
    requires s in Good(g) && b in s.live
    ensures b in s.hdr && RangeOf(s, b).start % ALIGNMENT == 0 && RangeOf(s, b).len > 0
    ensures s.hdr[b].slab + SLAB_HEADER < b && RangeOf(s, b).start + RangeOf(s, b).len <= s.hdr[b].slab + SLAB_SIZE
  {
    var k := LiveBlock(g, s, b);
    SlabFacts(g, s, k, s.hdr[b].slab);
    BlockBounds(s.hdr[b].slab, SizeOf(g, k), b);
    SizesRoute(g, k);
  }

  /** How a step changes the live set: by the block of its event, and no other live header moves. */
  ghost predicate LiveFollows(s: Sys, e: Event, s': Sys)
  {
    && (forall b | b in s.live && b in s'.live :: HdrOf(s', b) == HdrOf(s, b))
    && match e
       case Silent => s'.live == s.live
       case HandOut(r) => r.start >= HEADER && var b := r.start - HEADER; b !in s.live && s'.live == s.live + {b} && RangeOf(s', b) == r
       case TakeBack(r) => r.start >= HEADER && var b := r.start - HEADER; b in s.live && s'.live == s.live - {b} && RangeOf(s, b) == r
  }

  lemma LiveChanges(g: Config, s: Sys, a: Action)
    requires s in Good(g) && WfConfig(g) && Enabled(g, s, a)
    ensures LiveFollows(s, EventOf(g, s, a), Apply(g, s, a))
  {
    match a
    case StampBlock(t) => StampChangesLive(g, s, t);
    case Malloc(t, c) => MallocChangesLive(g, s, t, c);
    case Free(t, b) => FreeChangesLive(g, s, t, b);
    case RunSc(t, os) => RunScKeepsLive(g, s, t, os);
    case _ => OtherStepsAreSilent(g, s, a);
  }

  lemma OtherStepsAreSilent(g: Config, s: Sys, a: Action)
    requires WfConfig(g) && Enabled(g, s, a) && !a.StampBlock? && !a.Malloc? && !a.Free? && !a.RunSc?
    ensures LiveFollows(s, EventOf(g, s, a), Apply(g, s, a))
  {
  }

  lemma StampChangesLive(g: Config, s: Sys, t: nat)
    requires s in Good(g) && WfConfig(g) && Enabled(g, s, StampBlock(t))
    ensures LiveFollows(s, EventOf(g, s, StampBlock(t)), Apply(g, s, StampBlock(t)))
  {
    var b := s.threads[t].pc.block;
    HandFacts(g, s, t, b);
    assert b !in Holds(s, Live);
  }

  lemma MallocChangesLive(g: Config, s: Sys, t: nat, c: nat)
    requires s in Good(g) && WfConfig(g) && Enabled(g, s, Malloc(t, c))
    ensures LiveFollows(s, EventOf(g, s, Malloc(t, c)), Apply(g, s, Malloc(t, c)))
  {
    var cache := s.threads[t].cache;
    if cache.use && cache.bins[c].list != [] {
      CachedBlock(g, s, t, cache, c, cache.bins[c].list[0], Key(cache.node, c));
      assert cache.bins[c].list[0] !in Holds(s, Live);
    }
  }

  lemma FreeChangesLive(g: Config, s: Sys, t: nat, b: Addr)
    requires s in Good(g) && WfConfig(g) && Enabled(g, s, Free(t, b))
    ensures Apply(g, s, Free(t, b)).live == s.live - {b} && Apply(g, s, Free(t, b)).hdr == s.hdr
  {
    var k := LiveBlock(g, s, b);
    FreeResult(g, s, t, b, k, s.threads[t].cache);
  }

  lemma RunScKeepsLive(g: Config, s: Sys, t: nat, os: Option<Addr>)
    requires s in Good(g) && WfConfig(g) && Enabled(g, s, RunSc(t, os))
    ensures Apply(g, s, RunSc(t, os)).live == s.live
    ensures forall b | b in s.live :: HdrOf(Apply(g, s, RunSc(t, os)), b) == HdrOf(s, b)
  {
    var k := s.threads[t].pc.key;
    TakenBlockNotLive(g, s, k, os);
    RunScHeaders(g, s, t, os, k);
  }

  /** A class never hands out a block that is live: what it takes was free, or came with the new slab. */
  lemma TakenBlockNotLive(g: Config, s: Sys, k: Key, os: Option<Addr>)
    requires s in Good(g) && k in s.cls && FreshRegion(s, os)
    ensures Capacity(SizeOf(g, k)) > 0
    ensures AllocateExisting(s.cls[k].sc).block !in s.live && Allocate(s.cls[k].sc, SizeOf(g, k), os).block !in s.live
  {
    var c, size := s.cls[k].sc, SizeOf(g, k);
    KeyFacts(g, s, k);
    FreshForClass(s, k, os);
    AllocateExistingProperties(c, size);
    AllocateProperties(c, size, os);
    forall b | b in s.live ensures b != NULL && b !in FreeSet(c) && !(os.Some? && IsBlock(os.value, size, b)) {
      LiveIsNotFree(g, s, k, b);
      if os.Some? && IsBlock(os.value, size, b) { FreshBlockIsNew(g, s, os.value, size, b); }
    }
  }

  lemma LiveIsNotFree(g: Config, s: Sys, k: Key, b: Addr)
    requires s in Good(g) && k in s.cls && b in s.live
    ensures b != NULL && b !in FreeSet(s.cls[k].sc) && b in s.place
  {
    LiveBlockFits(g, s, b);
    assert b in Holds(s, Live) && b !in Holds(s, OnFreeList(k));
  }

  lemma RunScHeaders(g: Config, s: Sys, t: nat, os: Option<Addr>, k: Key)
    requires WfConfig(g) && Enabled(g, s, RunSc(t, os)) && k == s.threads[t].pc.key && Capacity(SizeOf(g, k)) > 0
    requires AllocateExisting(s.cls[k].sc).block !in s.live && Allocate(s.cls[k].sc, SizeOf(g, k), os).block !in s.live
    ensures Apply(g, s, RunSc(t, os)).live == s.live
    ensures forall b | b in s.live :: HdrOf(Apply(g, s, RunSc(t, os)), b) == HdrOf(s, b)
  {
    var c, size := s.cls[k].sc, SizeOf(g, k);
    match s.threads[t].pc.op
    case Plain => TakeHeaders(g, s, t, Allocate(c, size, os), Idle);
    case Grow => TakeHeaders(g, s, t, Allocate(c, size, os), Idle);
    case Probe1 => TakeHeaders(g, s, t, AllocateExisting(c), WantBin(k, Drain));
    case Probe2 => TakeHeaders(g, s, t, AllocateExisting(c), WantSc(k, ScOp.Grow));
    case FreeOne(b, cont) => GiveHeaders(g, s, t, [b], true, cont);
    case FreeMany(batch, cont) => GiveHeaders(g, s, t, batch, false, cont);
  }

  lemma TakeHeaders(g: Config, s: Sys, t: nat, r: Taken, otherwise: Pc)
    requires t < |s.threads| && s.threads[t].pc.InSc? && s.threads[t].pc.key in s.cls && r.block !in s.live
    ensures TakeBlock(g, s, t, r, otherwise).live == s.live
    ensures forall b | b in s.live :: HdrOf(TakeBlock(g, s, t, r, otherwise), b) == HdrOf(s, b)
  {
  }

  lemma GiveHeaders(g: Config, s: Sys, t: nat, blocks: seq<Addr>, single: bool, cont: Cont)
    requires t < |s.threads| && s.threads[t].pc.InSc? && s.threads[t].pc.key in s.cls && (single ==> |blocks| == 1)
    ensures GiveBack(g, s, t, blocks, single, cont).live == s.live && GiveBack(g, s, t, blocks, single, cont).hdr == s.hdr
  {
  }

  /** Every step of the machinery is the step of the abstract allocator that its event names. */
  lemma StepRefines(g: Config, s: Sys, a: Action)
    requires s in Good(g) && WfConfig(g) && Enabled(g, s, a)
    ensures AbstractStep(View(s), EventOf(g, s, a), View(Apply(g, s, a)))
  {
    var s' := Apply(g, s, a);
    var e := EventOf(g, s, a);
    LiveChanges(g, s, a);
    StepKeeps(g, s, a);
    match e
    case Silent =>
      assert forall b | b in s.live :: RangeOf(s', b) == RangeOf(s, b);
      assert View(s') == View(s);
    case HandOut(r) => ViewGrows(g, s, s', r.start - HEADER);
    case TakeBack(r) => ViewShrinks(g, s, s', r.start - HEADER);
  }

  lemma ViewGrows(g: Config, s: Sys, s': Sys, b: Addr)
    requires s' in Good(g) && b !in s.live && s'.live == s.live + {b}
    requires forall x | x in s.live :: HdrOf(s', x) == HdrOf(s, x)
    ensures AbstractStep(View(s), HandOut(RangeOf(s', b)), View(s'))
  {
    var r := RangeOf(s', b);
    LiveBlockFits(g, s', b);
    forall q | q in View(s) ensures q != r && Disjoint(r, q) {
      var c :| c in s.live && q == RangeOf(s, c);
      LiveBlocksDisjoint(g, s', b, c);
    }
    ViewPlus(s, s', b);
  }

  lemma ViewPlus(s: Sys, s': Sys, b: Addr)
    requires b !in s.live && s'.live == s.live + {b}
    requires forall x | x in s.live :: HdrOf(s', x) == HdrOf(s, x)
    ensures View(s') == View(s) + iset{RangeOf(s', b)}
  {
    forall q ensures q in View(s') <==> q in View(s) || q == RangeOf(s', b) {
      if q in View(s) {
        var c :| c in s.live && q == RangeOf(s, c);
        assert c in s'.live && q == RangeOf(s', c);
      }
      if q == RangeOf(s', b) { assert b in s'.live; }
      if q in View(s') {
        var c :| c in s'.live && q == RangeOf(s', c);
        if c != b { assert c in s.live && q == RangeOf(s, c); }
      }
    }
  }

  lemma ViewShrinks(g: Config, s: Sys, s': Sys, b: Addr)
    requires s in Good(g) && b in s.live && s'.live == s.live - {b}
    requires forall x | x in s'.live :: HdrOf(s', x) == HdrOf(s, x)
    ensures AbstractStep(View(s), TakeBack(RangeOf(s, b)), View(s'))
  {
    var r := RangeOf(s, b);
    ViewPlus(s', s, b);
    assert forall c | c in s'.live :: RangeOf(s', c).start != r.start;
    assert View(s') == View(s) - iset{r};
  }

  /** The events of a run, and the abstract states they lead through. */
  ghost predicate AbstractRun(vs: seq<iset<Range>>, es: seq<Event>)
  {
    |vs| == |es| + 1 && forall i | 0 <= i < |es| :: AbstractStep(vs[i], es[i], vs[i + 1])
  }

  ghost function Events(g: Config, s: Sys, run: seq<Action>): seq<Event>
    requires WfConfig(g)
    decreases |run|
  {
    if run == [] || !Enabled(g, s, run[0]) then []
    else [EventOf(g, s, run[0])] + Events(g, Apply(g, s, run[0]), run[1..])
  }

  /** Every run of the machinery is a run of the abstract allocator with the same events. */
  lemma {:induction false} RunRefines(g: Config, s: Sys, run: seq<Action>, s': Sys) returns (vs: seq<iset<Range>>)
    requires s in Good(g) && WfConfig(g) && IsRun(g, s, run, s')
    ensures |vs| == |run| + 1 && vs[0] == View(s) && vs[|run|] == View(s')
    ensures AbstractRun(vs, Events(g, s, run))
    decreases |run|
  {
    if run == [] {
      vs := [View(s)];
    } else {
      StepRefines(g, s, run[0]);
      StepKeeps(g, s, run[0]);
      var rest := RunRefines(g, Apply(g, s, run[0]), run[1..], s');
      vs := [View(s)] + rest;
      AbstractRunPush(View(s), EventOf(g, s, run[0]), rest, Events(g, Apply(g, s, run[0]), run[1..]));
    }
  }

  lemma AbstractRunPush(v: iset<Range>, e: Event, vs: seq<iset<Range>>, es: seq<Event>)
    requires AbstractRun(vs, es) && AbstractStep(v, e, vs[0])
    ensures AbstractRun([v] + vs, [e] + es)
  {
    forall i | 0 <= i < |es| + 1 ensures AbstractStep(([v] + vs)[i], ([e] + es)[i], ([v] + vs)[i + 1]) {
      if i > 0 { assert AbstractStep(vs[i - 1], es[i - 1], vs[i]); }
    }
  }

  /** A request is served from a class at least as large as it asked for. */
  lemma RequestFits(g: Config, size: nat)
    requires WfConfig(g) && size <= g.table.t3
    ensures T.ClassIndex(g.table, size).Index? && T.ClassIndex(g.table, size).value < |g.sizes|
    ensures size <= g.sizes[T.ClassIndex(g.table, size).value]
  {
    T.ClosedFormAgreesWithTable(g.table, size);
  }

  // ---- the foreign byte counter ----

  /** foreign_bytes_ is exactly the bytes the bins hold and have counted plus those detached and not yet
      subtracted, and no pending subtraction exceeds it. */
  lemma ForeignBytesExact(g: Config, s: Sys, n: nat)
    requires Reachable(g, s) && n < g.nodes
    ensures |s.foreign| == g.nodes
    ensures s.foreign[n] == Sum(CountedSeq(g, s, n)) + Sum(UnsubtractedSeq(s, n)) && s.foreign[n] >= 0
    ensures forall t | 0 <= t < |s.threads| :: 0 <= Unsubtracted(s.threads[t].pc, n) <= s.foreign[n]
  {
    ReachableIsGood(g, s);
    CountedNonNegative(g, s, n);
    SumNonNegative(CountedSeq(g, s, n));
    UnsubtractedNonNegative(g, s, n);
    SumNonNegative(UnsubtractedSeq(s, n));
    forall t | 0 <= t < |s.threads| ensures 0 <= Unsubtracted(s.threads[t].pc, n) <= s.foreign[n] {
      SumBounds(UnsubtractedSeq(s, n), t);
    }
  }

  /** A zero counter means every bin of the node is empty, unless a thread is between linking a block into
      it and counting that block. */
  lemma ZeroMeansEmpty(g: Config, s: Sys, k: Key)
    requires Reachable(g, s) && IsKey(g, k) && k.node < |s.foreign| && s.foreign[k.node] == 0
    ensures k in s.cls
    ensures s.cls[k].bin.list == [] || (s.cls[k].binLock.Some? && PcOf(s, s.cls[k].binLock.value).Pushed?)
  {
    ReachableIsGood(g, s);
    var n := k.node;
    CountedNonNegative(g, s, n);
    UnsubtractedNonNegative(g, s, n);
    SumNonNegative(UnsubtractedSeq(s, n));
    SumBounds(CountedSeq(g, s, n), k.cls);
    assert CountedSeq(g, s, n)[k.cls] == Counted(g, s, k);
    KeyFacts(g, s, k);
    SizesRoute(g, k);
    if s.cls[k].bin.list != [] { MulMono(1, |s.cls[k].bin.list|, SizeOf(g, k)); }
  }

  /** Overflow drains are rare: D of them take more than D * (high - low) bytes of enqueued blocks. */
  lemma DrainsAreAmortized(g: Config, s: Sys, k: Key)
    requires Reachable(g, s) && k in s.cls && s.cls[k].bin.overflows >= 1
    ensures s.cls[k].bin.overflows * (High(g, k) - Low(g, k)) < s.cls[k].bin.enqueued * SizeOf(g, k)
  {
    ReachableIsGood(g, s);
    KeyFacts(g, s, k);
    Amortize(s.cls[k].bin.overflows, High(g, k) - Low(g, k), s.cls[k].bin.bytes, s.cls[k].bin.enqueued * SizeOf(g, k));
  }

  lemma Amortize(drains: nat, gap: int, left: int, paid: int)
    requires drains >= 1 && left >= 0 && paid >= left + drains * (gap + 1)
    ensures drains * gap < paid
  {
    assert drains * (gap + 1) == drains * gap + drains;
  }

  /** Whenever its mutex is free, a bin is within the high watermark. */
  lemma BinsWithinHighWatermark(g: Config, s: Sys, k: Key)
    requires Reachable(g, s) && k in s.cls && s.cls[k].binLock == None
    ensures s.cls[k].bin.bytes <= High(g, k) && s.cls[k].bin.bytes == |s.cls[k].bin.list| * SizeOf(g, k)
  {
    ReachableIsGood(g, s);
    KeyFacts(g, s, k);
  }

  /** A thread cache bin holds blocks of its own node and class only, and within the byte cap. */
  lemma CachesWithinCap(g: Config, s: Sys, t: nat, c: nat)
    requires Reachable(g, s) && t < |s.threads| && s.threads[t].cache.Cache? && c < |s.threads[t].cache.bins|
    ensures var k := Key(s.threads[t].cache.node, c);
      var bin := s.threads[t].cache.bins[c];
      && IsKey(g, k) && bin.bytes == |bin.list| * SizeOf(g, k) && bin.bytes <= High(g, k)
      && forall b | b in bin.list :: Stamped(g, s, b, k)
  {
    ReachableIsGood(g, s);
    CacheFacts(g, s, t, s.threads[t].cache);
    var k := Key(s.threads[t].cache.node, c);
    assert CacheBinOk(g, k, s.threads[t].cache.bins[c]);
    forall b | b in s.threads[t].cache.bins[c].list ensures Stamped(g, s, b, k) {
      CachedBlock(g, s, t, s.threads[t].cache, c, b, k);
    }
  }

  // ---- size classes between critical sections ----

  /** In every reachable state every size class is well formed: its free lists are duplicate-free lists of its
      slabs' own blocks, current_ is null or one of its slabs, and at most one slab is empty. */
  lemma SizeClassesStaySettled(g: Config, s: Sys, k: Key)
    requires Reachable(g, s) && k in s.cls
    ensures Ok(s.cls[k].sc, SizeOf(g, k)) && AtMostOneEmpty(s.cls[k].sc, SizeOf(g, k))
    ensures s.cls[k].sc.current == NULL || s.cls[k].sc.current in s.cls[k].sc.slabs
  {
    ReachableIsGood(g, s);
    KeyFacts(g, s, k);
  }

  // ---- how many slabs ----

  /** The most blocks of class k off their free lists in any state along the run. */
  ghost function MostOutside(g: Config, s: Sys, run: seq<Action>, k: Key): int
    requires WfConfig(g) && exists s' :: IsRun(g, s, run, s')
    decreases |run|
  {
    var here := if k in s.cls then Outside(s.cls[k].sc, SizeOf(g, k)) else 0;
    if run == [] then here
    else
      var s' :| IsRun(g, s, run, s');
      assert Enabled(g, s, run[0]) && IsRun(g, Apply(g, s, run[0]), run[1..], s');
      var later := MostOutside(g, Apply(g, s, run[0]), run[1..], k);
      if here > later then here else later
  }

  ghost predicate PeakFollows(g: Config, s: Sys, s': Sys, k: Key)
    requires k in s.cls
  {
    k in s'.cls && (s'.cls[k].peak == s.cls[k].peak || s'.cls[k].peak == Outside(s'.cls[k].sc, SizeOf(g, k)))
  }

  lemma PeakIsSeen(g: Config, s: Sys, a: Action, k: Key)
    requires WfConfig(g) && Enabled(g, s, a) && k in s.cls
    ensures PeakFollows(g, s, Apply(g, s, a), k)
  {
    if a.RunSc? { PeakUnderLock(g, s, a.t, a.os, k); } else { SlabsChangeOnlyUnderLock(g, s, a, k); }
  }

  lemma PeakUnderLock(g: Config, s: Sys, t: nat, os: Option<Addr>, k: Key)
    requires WfConfig(g) && Enabled(g, s, RunSc(t, os)) && k in s.cls
    ensures PeakFollows(g, s, Apply(g, s, RunSc(t, os)), k)
  {
    var j := s.threads[t].pc.key;
    var c, size := s.cls[j].sc, SizeOf(g, j);
    match s.threads[t].pc.op
    case Plain => if Capacity(size) > 0 { TakePeak(g, s, t, Allocate(c, size, os), Idle, k); }
    case Grow => if Capacity(size) > 0 { TakePeak(g, s, t, Allocate(c, size, os), Idle, k); }
    case Probe1 => TakePeak(g, s, t, AllocateExisting(c), WantBin(j, Drain), k);
    case Probe2 => TakePeak(g, s, t, AllocateExisting(c), WantSc(j, ScOp.Grow), k);
    case FreeOne(b, cont) => GivePeak(g, s, t, [b], true, cont, k);
    case FreeMany(batch, cont) => GivePeak(g, s, t, batch, false, cont, k);
  }

  lemma TakePeak(g: Config, s: Sys, t: nat, r: Taken, otherwise: Pc, k: Key)
    requires t < |s.threads| && s.threads[t].pc.InSc? && s.threads[t].pc.key in s.cls && k in s.cls
    ensures PeakFollows(g, s, TakeBlock(g, s, t, r, otherwise), k)
  {
  }

  lemma GivePeak(g: Config, s: Sys, t: nat, blocks: seq<Addr>, single: bool, cont: Cont, k: Key)
    requires t < |s.threads| && s.threads[t].pc.InSc? && s.threads[t].pc.key in s.cls && k in s.cls && (single ==> |blocks| == 1)
    ensures PeakFollows(g, s, GiveBack(g, s, t, blocks, single, cont), k)
  {
  }

  lemma {:induction false} PeakAlongRun(g: Config, s: Sys, run: seq<Action>, s': Sys, k: Key)
    requires WfConfig(g) && IsRun(g, s, run, s') && k in s.cls
    ensures k in s'.cls
    ensures s'.cls[k].peak <= s.cls[k].peak || s'.cls[k].peak <= MostOutside(g, s, run, k)
    decreases |run|
  {
    if run != [] {
      PeakIsSeen(g, s, run[0], k);
      PeakAlongRun(g, Apply(g, s, run[0]), run[1..], s', k);
      HereCounts(g, Apply(g, s, run[0]), run[1..], k);
    }
  }

  lemma HereCounts(g: Config, s: Sys, run: seq<Action>, k: Key)
    requires WfConfig(g) && (exists s' :: IsRun(g, s, run, s')) && k in s.cls
    ensures Outside(s.cls[k].sc, SizeOf(g, k)) <= MostOutside(g, s, run, k)
  {
  }

  /** A class never maps more slabs than its peak use so far needs: growing rechecks, under the lock, that
      no slab has a free block. */
  lemma SlabCountBounded(g: Config, run: seq<Action>, s: Sys, k: Key)
    requires WfConfig(g) && IsRun(g, Init(g), run, s) && k in s.cls
    ensures Capacity(SizeOf(g, k)) > 0
    ensures var peak := MostOutside(g, Init(g), run, k);
      |s.cls[k].sc.slabs| <= SlabsFor(if peak > 0 then peak else 0, Capacity(SizeOf(g, k)))
  {
    assert Reachable(g, s);
    ReachableIsGood(g, s);
    KeyFacts(g, s, k);
    PeakWasSeen(g, run, s, k);
    SlabsForPeak(|s.cls[k].sc.slabs|, s.cls[k].peak, MostOutside(g, Init(g), run, k), Capacity(SizeOf(g, k)));
  }

  lemma PeakWasSeen(g: Config, run: seq<Action>, s: Sys, k: Key)
    requires WfConfig(g) && IsRun(g, Init(g), run, s) && k in s.cls && IsKey(g, k)
    ensures s.cls[k].peak <= 0 || s.cls[k].peak <= MostOutside(g, Init(g), run, k)
  {
    assert k == Key(k.node, k.cls) && k in Init(g).cls;
    PeakAlongRun(g, Init(g), run, s, k);
  }

  lemma SlabsForPeak(slabs: nat, peak: int, most: int, capacity: nat)
    requires capacity > 0 && (slabs == 0 || (slabs - 1) * capacity < peak) && (peak <= 0 || peak <= most)
    ensures slabs <= SlabsFor(if most > 0 then most else 0, capacity)
  {
    if slabs > 0 { MulMono(0, slabs - 1, capacity); }
    SlabsForBound(slabs, if most > 0 then most else 0, capacity);
  }

  // ---- no deadlock ----

  /** A thread holds at most one mutex and never waits while holding one; so whenever some thread is in the
      middle of an operation, either it or the holder of the mutex it waits for can take a step. */
  lemma NoDeadlock(g: Config, s: Sys, t: nat) returns (a: Action)
    requires Reachable(g, s) && t < |s.threads| && !s.threads[t].pc.Idle?
    ensures Enabled(g, s, a) && !s.threads[a.t].pc.Idle?
    ensures a.t == t ||
      (s.threads[t].pc.WantSc? && s.threads[t].pc.key in s.cls && s.cls[s.threads[t].pc.key].scLock == Some(a.t)) ||
      (s.threads[t].pc.WantBin? && s.threads[t].pc.key in s.cls && s.cls[s.threads[t].pc.key].binLock == Some(a.t))
  {
    ReachableIsGood(g, s);
    ThreadFacts(g, s, t);
    var pc := s.threads[t].pc;
    match pc
    case Hint(_) => a := ReadHint(t, false);
    case WantSc(k, _) =>
      KeyFacts(g, s, k);
      a := if s.cls[k].scLock == None then LockSc(t) else RunSc(s.cls[k].scLock.value, None);
    case WantBin(k, _) =>
      KeyFacts(g, s, k);
      if s.cls[k].binLock == None { a := LockBin(t); } else { a := BinHolderStep(g, s, s.cls[k].binLock.value); }
    case InSc(_, _) => a := RunSc(t, None);
    case Stamp(_, _) => a := StampBlock(t);
    case Subtract(_, _, _, _) => a := FetchSub(t);
    case Flush(_) => a := FlushNext(t);
    case _ => a := BinHolderStep(g, s, t);
  }

  lemma BinHolderStep(g: Config, s: Sys, t: nat) returns (a: Action)
    requires s in Good(g) && t < |s.threads| && BinHeld(s.threads[t].pc).Some?
    ensures a.t == t && Enabled(g, s, a)
  {
    ThreadFacts(g, s, t);
    match s.threads[t].pc
    case InBin(_, _) => a := RunBin(t);
    case Pushed(_, _) => a := FetchAdd(t);
    case Added(_, _) => a := Settle(t);
  }

  /** Thread t holds the size-class mutex of k, or its bin mutex. */
  predicate HoldsScLock(s: Sys, t: nat, k: Key) { k in s.cls && s.cls[k].scLock == Some(t) }
  predicate HoldsBinLock(s: Sys, t: nat, k: Key) { k in s.cls && s.cls[k].binLock == Some(t) }

  /** No thread ever holds two mutexes, and one that waits for a mutex holds none. */
  lemma HoldsAtMostOneLock(g: Config, s: Sys, t: nat, k: Key, j: Key)
    requires Reachable(g, s) && t < |s.threads|
    ensures HoldsScLock(s, t, k) && HoldsScLock(s, t, j) ==> k == j
    ensures HoldsBinLock(s, t, k) && HoldsBinLock(s, t, j) ==> k == j
    ensures !(HoldsScLock(s, t, k) && HoldsBinLock(s, t, j))
    ensures s.threads[t].pc.WantSc? || s.threads[t].pc.WantBin? ==> !HoldsScLock(s, t, k) && !HoldsBinLock(s, t, k)
  {
    ReachableIsGood(g, s);
    assert k in s.cls ==> HeldByInsider(s, k);
    assert j in s.cls ==> HeldByInsider(s, j);
  }

  // ---- nothing leaks ----

  /** When every thread is idle with its cache flushed, each block is live, on its slab's free list, or in its
      own class's foreign bin; and with nothing live, freeing each bin in one batch, which is what
      drain_all_foreign does, leaves each class at most one slab, all of it free. */
  lemma QuiescentSystemIsClean(g: Config, s: Sys, k: Key)
    requires Reachable(g, s) && k in s.cls
    requires forall t | 0 <= t < |s.threads| :: s.threads[t] == Thread(Idle, NoCache)
    ensures forall p, b | InSystem(s, k, p) && IsBlock(p, SizeOf(g, k), b) :: b in s.live || b in FreeOf(s.cls[k].sc, p) || b in s.cls[k].bin.list
    ensures forall b | b in s.cls[k].bin.list :: Owner(Owners(s), b) in s.cls[k].sc.free
    ensures s.live == {} ==>
      var d := FreeBatch(s.cls[k].sc, SizeOf(g, k), Owners(s), s.cls[k].bin.list);
      |d.slabs| <= 1 && forall p, b | p in d.slabs && IsBlock(p, SizeOf(g, k), b) :: b in FreeOf(d, p)
  {
    ReachableIsGood(g, s);
    KeyFacts(g, s, k);
    forall p, b | InSystem(s, k, p) && IsBlock(p, SizeOf(g, k), b)
      ensures b in s.live || b in FreeOf(s.cls[k].sc, p) || b in s.cls[k].bin.list
    {
      WhereAtRest(g, s, k, p, b);
    }
    BinIsBatch(g, s, k);
    if s.live == {} { FreedBatchLeavesOne(s.cls[k].sc, SizeOf(g, k), Owners(s), s.cls[k].bin.list); }
  }

  lemma WhereAtRest(g: Config, s: Sys, k: Key, p: Addr, b: Addr)
    requires Reachable(g, s) && InSystem(s, k, p) && IsBlock(p, SizeOf(g, k), b)
    requires forall t | 0 <= t < |s.threads| :: s.threads[t] == Thread(Idle, NoCache)
    ensures b in s.live || b in FreeOf(s.cls[k].sc, p) || b in s.cls[k].bin.list
  {
    ReachableIsGood(g, s);
    EveryBlockAtOnePlace(g, s, k, p, b);
    var pl :| b in Holds(s, pl);
    if pl.InForeignBin? {
      assert HomeOk(g, s, b, s.place[b]);
      SlabUnique(g, s, b, k, p, pl.key, s.hdr[b].slab);
    }
  }

  /** The blocks of a bin are outstanding blocks of its class, each owned by the slab its raw_ptr names. */
  lemma BinIsBatch(g: Config, s: Sys, k: Key)
    requires s in Good(g) && k in s.cls
    ensures BatchOk(s.cls[k].sc, SizeOf(g, k), Owners(s), s.cls[k].bin.list)
  {
    KeyFacts(g, s, k);
    forall b | b in s.cls[k].bin.list ensures Outstanding(s.cls[k].sc, SizeOf(g, k), Owner(Owners(s), b), b) {
      assert b in Holds(s, InForeignBin(k)) && b !in Holds(s, OnFreeList(k));
      assert HomeOk(g, s, b, s.place[b]);
      FreeBlockOwner(s.cls[k].sc, SizeOf(g, k), s.hdr[b].slab, b);
    }
  }

  /** When a batch is all that is out, freeing it leaves at most one slab, with all its blocks free. */
  lemma FreedBatchLeavesOne(c: ClassState, size: nat, own: map<Addr, Addr>, batch: seq<Addr>)
    requires Ok(c, size) && AtMostOneEmpty(c, size) && BatchOk(c, size, own, batch)
    requires forall p, b | p in c.slabs && IsBlock(p, size, b) :: b in FreeOf(c, p) || b in batch
    ensures forall b | b in batch :: Owner(own, b) in c.free
    ensures var d := FreeBatch(c, size, own, batch); |d.slabs| <= 1 && forall p, b | p in d.slabs && IsBlock(p, size, b) :: b in FreeOf(d, p)
  {
    FreeBatchProperties(c, size, own, batch);
    var d := FreeBatch(c, size, own, batch);
    forall p, b | p in d.slabs && IsBlock(p, size, b) ensures b in FreeOf(d, p) {
      FreeBlockOwner(c, size, p, b);
      FreeBlockOwner(d, size, p, b);
    }
    if |d.slabs| >= 2 {
      AllFreeIsEmpty(d, size, d.slabs[0]);
      AllFreeIsEmpty(d, size, d.slabs[1]);
    }
  }

  lemma AllFreeIsEmpty(c: ClassState, size: nat, p: Addr)
    requires Ok(c, size) && p in c.slabs && forall b | IsBlock(p, size, b) :: b in FreeOf(c, p)
    ensures Empty(c.free, size, p)
  {
    var all := InitList(p, size, Capacity(size));
    InitListProperties(p, size, Capacity(size));
    assert SlabOk(p, size, FreeOf(c, p));
    ListBound(p, size, FreeOf(c, p));
    NoDupCard(all);
    NoDupCard(FreeOf(c, p));
    SubsetCard(Elems(all), Elems(FreeOf(c, p)));
  }
}
