/** The step system with the memory its lists live in: every free list, cache bin, foreign bin and batch is
    threaded through payload words that users write while they hold the blocks. */
module ProtocolMemory {
  import opened Lists
  import opened Layout
  import opened SizeClassSpec
  import opened ForeignSpec
  import opened Protocol
  import opened ProtocolInvariant
  import opened ProtocolSteps
  import opened ProtocolTransfers
  import opened ProtocolClasses
  import opened ProtocolTheorems
  import T = SizeClassTable

  // ---- the lists in memory ----

  datatype ListId = FreeList(key: Key, slab: Addr) | CacheList(thread: nat, cls: nat) | BinList(key: Key) | BatchList(thread: nat)

  function BatchOf(pc: Pc): seq<Addr>
  {
    match pc
    case Subtract(_, batch, _, _) => batch
    case WantSc(_, op) => if op.FreeMany? then op.batch else []
    case InSc(_, op) => if op.FreeMany? then op.batch else []
    case _ => []
  }

  function CachedIn(cache: Cache, c: nat): seq<Addr>
  {
    if cache.Cache? && c < |cache.bins| then cache.bins[c].list else []
  }

  function ListAt(s: Sys, id: ListId): seq<Addr>
  {
    match id
    case FreeList(k, p) => if k in s.cls then FreeOf(s.cls[k].sc, p) else []
    case CacheList(t, c) => CachedIn(CacheOf(s, t), c)
    case BinList(k) => if k in s.cls then s.cls[k].bin.list else []
    case BatchList(t) => BatchOf(PcOf(s, t))
  }

  function PlaceOf(id: ListId): Place
  {
    match id
    case FreeList(k, _) => OnFreeList(k)
    case CacheList(t, c) => InCache(t, c)
    case BinList(k) => InForeignBin(k)
    case BatchList(t) => InHand(t)
  }

  ghost predicate Threaded(w: map<Addr, Addr>, list: seq<Addr>)
  {
    Chain(w, Head(list), list)
  }

  ghost predicate AllThreaded(s: Sys, w: map<Addr, Addr>)
  {
    forall id {:trigger ListAt(s, id)} :: Threaded(w, ListAt(s, id))
  }

  /** The step system together with memory. */
  datatype MemSys = MemSys(sys: Sys, words: map<Addr, Addr>)

  ghost function Linked(g: Config): iset<MemSys>
  {
    iset m: MemSys | m.sys in Good(g) && AllThreaded(m.sys, m.words)
  }

  // ---- what each step writes ----

  /** Slab::init: the first n blocks are linked in address order, each to the one before. */
  ghost function Initialised(w: map<Addr, Addr>, p: Addr, size: nat, n: nat): map<Addr, Addr>
  {
    if n == 0 then w
    else Initialised(w, p, size, n - 1)[Link(BlockAt(p, size, n - 1)) := Head(InitList(p, size, n - 1))]
  }

  /** detach_foreign_until_low_locked: each block of the list in turn is linked to the batch so far. */
  function Relinked(w: map<Addr, Addr>, list: seq<Addr>, batch: Addr): map<Addr, Addr>
    decreases |list|
  {
    if list == [] then w else Relinked(w[Link(list[0]) := batch], list[1..], list[0])
  }

  /** deallocate and deallocate_batch: each block in turn is linked to its own slab's free list. */
  function PushWords(w: map<Addr, Addr>, c: ClassState, own: map<Addr, Addr>, blocks: seq<Addr>): map<Addr, Addr>
    requires forall b | b in blocks :: Owner(own, b) in c.free
    decreases |blocks|
  {
    if blocks == [] then w
    else
      var p := Owner(own, blocks[0]);
      PushWords(w[Link(blocks[0]) := Head(FreeOf(c, p))], Push(c, p, blocks[0]), own, blocks[1..])
  }

  /** Memory after the step. Taking from a list only reads. */
  ghost function StepWords(g: Config, s: Sys, w: map<Addr, Addr>, a: Action): map<Addr, Addr>
    requires WfConfig(g) && Enabled(g, s, a)
  {
    match a
    case Free(t, b) => FreeWords(g, s, w, t, b)
    case RunBin(t) =>
      var pc := s.threads[t].pc;
      if pc.bop.Enqueue? then w[Link(pc.bop.block) := Head(s.cls[pc.key].bin.list)] else w
    case Settle(t) =>
      var k := s.threads[t].pc.key;
      var bin := s.cls[k].bin;
      if bin.bytes > High(g, k) then Relinked(w, bin.list[..DetachCount(|bin.list|, bin.bytes, SizeOf(g, k), Low(g, k))], NULL)
      else w
    case RunSc(t, os) => RunScWords(g, s, w, t, os)
    case _ => w
  }

  /** cache_block links the block; a block that goes to an arena is linked there. */
  ghost function FreeWords(g: Config, s: Sys, w: map<Addr, Addr>, t: nat, b: Addr): map<Addr, Addr>
    requires WfConfig(g) && Enabled(g, s, Free(t, b))
  {
    var cache, h := s.threads[t].cache, HdrOf(s, b);
    if !cache.use || h.node != cache.node then w
    else match T.ClassIndex(g.table, h.size)
      case OutOfRange => w
      case Index(c) =>
        if c >= |cache.bins| || cache.bins[c].bytes + h.size > T.MaxCachedBytes(g.table, h.size) then w
        else w[Link(b) := Head(cache.bins[c].list)]
  }

  ghost function RunScWords(g: Config, s: Sys, w: map<Addr, Addr>, t: nat, os: Option<Addr>): map<Addr, Addr>
    requires WfConfig(g) && Enabled(g, s, RunSc(t, os))
  {
    var k, op := s.threads[t].pc.key, s.threads[t].pc.op;
    var c := s.cls[k].sc;
    if op.Plain? || op.Grow? then
      if AllocateExisting(c).block == NULL && os.Some? then Initialised(w, os.value, SizeOf(g, k), Capacity(SizeOf(g, k))) else w
    else if op.Probe1? || op.Probe2? then w
    else if exists b | b in OpBlocks(op) :: Owner(Owners(s), b) !in c.free then w
    else PushWords(w, c, Owners(s), OpBlocks(op))
  }

  // ---- steps ----

  ghost predicate InSlab(s: Sys, x: Addr)
  {
    exists k: Key, p: Addr {:trigger InSystem(s, k, p)} :: InSystem(s, k, p) && p <= x < p + SLAB_SIZE
  }

  /** A step of a thread, a write through a pointer a user holds, or anything the rest of the program and the OS
      do to memory that no slab covers. */
  datatype MemEvent = Act(action: Action) | UserWrite(block: Addr, at: Addr, value: Addr) | Outside

  /** Memory is as the step wrote it. A mapping or unmapping says nothing of the words of the region it maps or
      unmaps, except for the links Slab::init writes. */
  ghost predicate WordsFollow(g: Config, s: Sys, w: map<Addr, Addr>, a: Action, s': Sys, w': map<Addr, Addr>)
    requires WfConfig(g) && Enabled(g, s, a)
  {
    && (forall x {:trigger Load(w', x)} | InSlab(s, x) == InSlab(s', x) :: Load(w', x) == Load(StepWords(g, s, w, a), x))
    && (forall b {:trigger Load(w', Link(b))} | b in s'.place && b !in s.place :: Load(w', Link(b)) == Load(StepWords(g, s, w, a), Link(b)))
  }

  /** The bytes a user may write: the size class's bytes behind the header. */
  ghost predicate InPayload(s: Sys, b: Addr, x: Addr)
  {
    Link(b) <= x < Link(b) + HdrOf(s, b).size
  }

  /** The states an event may lead to. */
  ghost function Next(g: Config, m: MemSys, e: MemEvent): iset<MemSys>
    requires WfConfig(g)
  {
    iset m': MemSys | IsNext(g, m, e, m')
  }

  ghost predicate IsNext(g: Config, m: MemSys, e: MemEvent, m': MemSys)
    requires WfConfig(g)
  {
    match e
    case Act(a) =>
      Enabled(g, m.sys, a) && m'.sys == Apply(g, m.sys, a) && WordsFollow(g, m.sys, m.words, a, m'.sys, m'.words)
    case UserWrite(b, at, value) =>
      m'.sys == m.sys && b in m.sys.live && InPayload(m.sys, b, at) && m'.words == m.words[at := value]
    case Outside =>
      m'.sys == m.sys && forall x {:trigger Load(m'.words, x)} | InSlab(m.sys, x) :: Load(m'.words, x) == Load(m.words, x)
  }

  // ---- where listed blocks are ----

  lemma ListedPlace(g: Config, s: Sys, id: ListId, b: Addr)
    requires s in Good(g) && b in ListAt(s, id)
    ensures b in s.place && s.place[b] == PlaceOf(id)
  {
    match id
    case FreeList(k, p) =>
      KeyFacts(g, s, k);
      assert p in s.cls[k].sc.slabs && b in FreeSet(s.cls[k].sc);
      assert b in Holds(s, OnFreeList(k));
    case CacheList(t, c) => assert b in Holds(s, InCache(t, c));
    case BinList(k) => assert b in Holds(s, InForeignBin(k));
    case BatchList(t) => assert b in Holds(s, InHand(t));
  }

  lemma PlacedInSlab(g: Config, s: Sys, b: Addr, x: Addr)
    requires s in Good(g) && b in s.place && b <= x
    requires forall k, p | InSystem(s, k, p) && IsBlock(p, SizeOf(g, k), b) :: x < b + Stride(SizeOf(g, k))
    ensures InSlab(s, x)
  {
    var k, p := PlacedHasSlab(g, s, b);
    BlockBounds(p, SizeOf(g, k), b);
    assert InSystem(s, k, p);
  }

  lemma LinkInSlab(g: Config, s: Sys, b: Addr)
    requires s in Good(g) && b in s.place
    ensures InSlab(s, Link(b))
  {
    PlacedInSlab(g, s, b, Link(b));
  }

  /** At every placed block's link, memory is what the step wrote. */
  lemma FollowsAtBlocks(g: Config, s: Sys, w: map<Addr, Addr>, a: Action, w': map<Addr, Addr>, b: Addr)
    requires s in Good(g) && Enabled(g, s, a) && WordsFollow(g, s, w, a, Apply(g, s, a), w')
    requires b in Apply(g, s, a).place
    ensures Load(w', Link(b)) == Load(StepWords(g, s, w, a), Link(b))
  {
    StepKeeps(g, s, a);
    LinkInSlab(g, Apply(g, s, a), b);
    if b in s.place { LinkInSlab(g, s, b); }
  }

  // ---- carrying lists across a step ----

  ghost predicate IsSuffix(l': seq<Addr>, l: seq<Addr>)
  {
    |l'| <= |l| && l' == l[|l| - |l'|..]
  }

  lemma SuffixThreaded(w: map<Addr, Addr>, w': map<Addr, Addr>, l: seq<Addr>, l': seq<Addr>, written: iset<Addr>)
    requires Threaded(w, l) && IsSuffix(l', l) && OnlyAt(w, w', written) && forall b | b in l' :: b !in written
    ensures Threaded(w', l')
  {
    ChainSuffix(w, Head(l), l, |l| - |l'|);
    ChainFrame(w, w', Head(l'), l');
  }

  /** A step that shortens lists from the front, and writes only links of blocks that come from elsewhere,
      leaves every list threaded but those that grew, which are shown separately. */
  lemma GrowThreads(g: Config, s: Sys, w: map<Addr, Addr>, s': Sys, w': map<Addr, Addr>,
                    written: iset<Addr>, from: Place, grown: iset<ListId>)
    requires MemSys(s, w) in Linked(g) && OnlyAt(w, w', written)
    requires forall id | id !in grown :: IsSuffix(ListAt(s', id), ListAt(s, id))
    requires forall b | b in written && b in s.place :: s.place[b] == from
    requires forall id, b {:trigger b in ListAt(s', id)} | id !in grown && PlaceOf(id) == from && b in ListAt(s', id) :: b !in written
    requires forall id | id in grown :: Threaded(w', ListAt(s', id))
    ensures AllThreaded(s', w')
  {
    forall id ensures Threaded(w', ListAt(s', id)) {
      if id !in grown {
        forall b | b in ListAt(s', id) ensures b !in written {
          assert b in ListAt(s, id);
          ListedPlace(g, s, id, b);
        }
        SuffixThreaded(w, w', ListAt(s, id), ListAt(s', id), written);
      }
    }
  }

  lemma ShrinkThreads(g: Config, s: Sys, w: map<Addr, Addr>, s': Sys)
    requires MemSys(s, w) in Linked(g) && forall id :: IsSuffix(ListAt(s', id), ListAt(s, id))
    ensures AllThreaded(s', w)
  {
    GrowThreads(g, s, w, s', w, iset{}, Live, iset{});
  }

  // ---- steps that only shorten lists ----

  /** The step changes thread t's record, and of the classes at most their locks. */
  lemma OwnListsShrink(s: Sys, s': Sys, t: nat)
    requires t < |s.threads| && |s'.threads| == |s.threads|
    requires forall u | 0 <= u < |s.threads| && u != t :: s'.threads[u] == s.threads[u]
    requires s'.cls.Keys == s.cls.Keys
    requires forall k | k in s.cls :: s'.cls[k].sc == s.cls[k].sc && s'.cls[k].bin.list == s.cls[k].bin.list
    requires forall c: nat :: IsSuffix(CachedIn(s'.threads[t].cache, c), CachedIn(s.threads[t].cache, c))
    requires IsSuffix(BatchOf(s'.threads[t].pc), BatchOf(s.threads[t].pc))
    ensures forall id :: IsSuffix(ListAt(s', id), ListAt(s, id))
  {
    forall id ensures IsSuffix(ListAt(s', id), ListAt(s, id)) {
      match id
      case CacheList(u, c) => if u != t && u < |s.threads| { assert s'.threads[u] == s.threads[u]; }
      case BatchList(u) => if u != t && u < |s.threads| { assert s'.threads[u] == s.threads[u]; }
      case _ =>
    }
  }

  /** Steps that touch neither a list nor a word. */
  predicate IsQuiet(a: Action)
  {
    a.Toggle? || a.Migrate? || a.Exit? || a.ReadHint? || a.LockSc? || a.StampBlock? || a.LockBin? || a.FetchAdd? || a.FetchSub?
  }

  lemma QuietLists(g: Config, s: Sys, a: Action)
    requires s in Good(g) && Enabled(g, s, a) && IsQuiet(a)
    ensures forall id :: IsSuffix(ListAt(Apply(g, s, a), id), ListAt(s, id))
  {
    match a
    case Toggle(t, use) => CacheFlagLists(g, s, a);
    case Migrate(t, node, use) => CacheFlagLists(g, s, a);
    case Exit(t) => CacheFlagLists(g, s, a);
    case LockSc(t) => LockLists(g, s, a);
    case LockBin(t) => LockLists(g, s, a);
    case FetchSub(t) => FetchSubLists(g, s, t);
    case _ => PcLists(g, s, a);
  }

  lemma CacheFlagLists(g: Config, s: Sys, a: Action)
    requires WfConfig(g) && Enabled(g, s, a) && (a.Toggle? || a.Migrate? || a.Exit?)
    ensures forall id :: IsSuffix(ListAt(Apply(g, s, a), id), ListAt(s, id))
  {
    OwnListsShrink(s, Apply(g, s, a), a.t);
  }

  lemma LockLists(g: Config, s: Sys, a: Action)
    requires WfConfig(g) && Enabled(g, s, a) && (a.LockSc? || a.LockBin?)
    ensures forall id :: IsSuffix(ListAt(Apply(g, s, a), id), ListAt(s, id))
  {
    OwnListsShrink(s, Apply(g, s, a), a.t);
  }

  lemma PcLists(g: Config, s: Sys, a: Action)
    requires WfConfig(g) && Enabled(g, s, a) && (a.ReadHint? || a.StampBlock? || a.FetchAdd?)
    ensures forall id :: IsSuffix(ListAt(Apply(g, s, a), id), ListAt(s, id))
  {
    OwnListsShrink(s, Apply(g, s, a), a.t);
  }

  lemma FetchSubLists(g: Config, s: Sys, t: nat)
    requires WfConfig(g) && Enabled(g, s, FetchSub(t))
    ensures forall id :: IsSuffix(ListAt(Apply(g, s, FetchSub(t)), id), ListAt(s, id))
  {
    OwnListsShrink(s, Apply(g, s, FetchSub(t)), t);
  }

  lemma AttachLists(g: Config, s: Sys, t: nat, node: nat, use: bool)
    requires s in Good(g) && Enabled(g, s, Attach(t, node, use))
    ensures forall id :: IsSuffix(ListAt(Apply(g, s, Attach(t, node, use)), id), ListAt(s, id))
  {
    OwnListsShrink(s, Apply(g, s, Attach(t, node, use)), t);
  }

  /** Taking the front of a cache bin leaves the rest. */
  lemma PopLists(s: Sys, s': Sys, t: nat, cache: Cache, c: nat, bytes: int, pc: Pc)
    requires t < |s.threads| && s.threads[t].cache == cache && cache.Cache? && c < |cache.bins| && cache.bins[c].list != []
    requires s'.threads == s.threads[t := Thread(pc, PoppedCache(cache, c, bytes))] && s'.cls == s.cls && BatchOf(pc) == []
    ensures forall id :: IsSuffix(ListAt(s', id), ListAt(s, id))
  {
    var cache' := PoppedCache(cache, c, bytes);
    forall d: nat ensures IsSuffix(CachedIn(cache', d), CachedIn(cache, d)) {
      if d < |cache.bins| && d != c { assert cache'.bins[d] == cache.bins[d]; }
    }
    OwnListsShrink(s, s', t);
  }

  function PoppedCache(cache: Cache, c: nat, bytes: int): Cache
    requires cache.Cache? && c < |cache.bins| && cache.bins[c].list != []
  {
    cache.(bins := cache.bins[c := CacheBin(cache.bins[c].list[1..], bytes)])
  }

  lemma RouteHoldsNoBatch(g: Config, arena: nat, h: Header, b: Addr, cont: Cont)
    requires T.Wf(g.table)
    ensures BatchOf(Route(g, arena, h, b, cont)) == []
  {
  }

  lemma MallocLists(g: Config, s: Sys, t: nat, c: nat)
    requires s in Good(g) && Enabled(g, s, Malloc(t, c))
    ensures forall id :: IsSuffix(ListAt(Apply(g, s, Malloc(t, c)), id), ListAt(s, id))
  {
    var s', cache := Apply(g, s, Malloc(t, c)), s.threads[t].cache;
    if cache.use && cache.bins[c].list != [] {
      PopLists(s, s', t, cache, c, cache.bins[c].bytes - HdrOf(s, cache.bins[c].list[0]).size, Idle);
    } else {
      OwnListsShrink(s, s', t);
    }
  }

  lemma FlushNextLists(g: Config, s: Sys, t: nat)
    requires s in Good(g) && Enabled(g, s, FlushNext(t))
    ensures forall id :: IsSuffix(ListAt(Apply(g, s, FlushNext(t)), id), ListAt(s, id))
  {
    var s', cache, next := Apply(g, s, FlushNext(t)), s.threads[t].cache, s.threads[t].pc.next;
    ThreadFacts(g, s, t);
    var i := FirstNonEmpty(cache.bins, 0);
    if i == |cache.bins| {
      OwnListsShrink(s, s', t);
    } else {
      var b := cache.bins[i].list[0];
      var h := HdrOf(s, b);
      RouteHoldsNoBatch(g, cache.node, h, b, Flushing(next));
      PopLists(s, s', t, cache, i, cache.bins[i].bytes - h.size, Route(g, cache.node, h, b, Flushing(next)));
    }
  }

  // ---- steps that link a block in front of a list ----

  lemma PushThreaded(g: Config, s: Sys, w: map<Addr, Addr>, id: ListId, b: Addr)
    requires MemSys(s, w) in Linked(g) && b in s.place && s.place[b] != PlaceOf(id)
    ensures Threaded(w[Link(b) := Head(ListAt(s, id))], [b] + ListAt(s, id)) && OnlyAt(w, w[Link(b) := Head(ListAt(s, id))], iset{b})
  {
    var k, p := PlacedHasSlab(g, s, b);
    BlockBounds(p, SizeOf(g, k), b);
    if b in ListAt(s, id) { ListedPlace(g, s, id, b); }
    ChainPush(w, b, Head(ListAt(s, id)), ListAt(s, id));
  }

  lemma FreeThreads(g: Config, s: Sys, w: map<Addr, Addr>, t: nat, b: Addr)
    requires MemSys(s, w) in Linked(g) && Enabled(g, s, Free(t, b))
    ensures AllThreaded(Apply(g, s, Free(t, b)), StepWords(g, s, w, Free(t, b)))
  {
    var s', w', cache := Apply(g, s, Free(t, b)), StepWords(g, s, w, Free(t, b)), s.threads[t].cache;
    var k := LiveBlock(g, s, b);
    FreeResult(g, s, t, b, k, cache);
    SizesRoute(g, k);
    if cache.use && k.node == cache.node && cache.bins[k.cls].bytes + SizeOf(g, k) <= High(g, k) {
      var id := CacheList(t, k.cls);
      PushThreaded(g, s, w, id, b);
      forall i | i != id ensures IsSuffix(ListAt(s', i), ListAt(s, i)) { CachePushOthers(s, s', t, k.cls, i); }
      GrowThreads(g, s, w, s', w', iset{b}, Live, iset{id});
    } else {
      OwnListsShrink(s, s', t);
      ShrinkThreads(g, s, w, s');
    }
  }

  lemma CachePushOthers(s: Sys, s': Sys, t: nat, c: nat, id: ListId)
    requires t < |s.threads| && s.threads[t].cache.Cache? && c < |s.threads[t].cache.bins| && BatchOf(s.threads[t].pc) == []
    requires s'.cls == s.cls && |s'.threads| == |s.threads| && s'.threads[t].cache.Cache? && BatchOf(s'.threads[t].pc) == []
    requires forall u | 0 <= u < |s.threads| && u != t :: s'.threads[u] == s.threads[u]
    requires |s'.threads[t].cache.bins| == |s.threads[t].cache.bins|
    requires forall d | 0 <= d < |s.threads[t].cache.bins| && d != c :: s'.threads[t].cache.bins[d] == s.threads[t].cache.bins[d]
    requires id != CacheList(t, c)
    ensures ListAt(s', id) == ListAt(s, id)
  {
    match id
    case CacheList(u, d) => if u != t && u < |s.threads| { assert s'.threads[u] == s.threads[u]; }
    case BatchList(u) => if u != t && u < |s.threads| { assert s'.threads[u] == s.threads[u]; }
    case _ =>
  }

  // ---- foreign bins ----

  /** Only class k's bin and thread t's pc change. */
  lemma BinListsElsewhere(s: Sys, s': Sys, t: nat, k: Key)
    requires t < |s.threads| && |s'.threads| == |s.threads| && s'.threads[t].cache == s.threads[t].cache
    requires forall u | 0 <= u < |s.threads| && u != t :: s'.threads[u] == s.threads[u]
    requires s'.cls.Keys == s.cls.Keys && (forall j | j in s.cls && j != k :: s'.cls[j] == s.cls[j])
    requires k in s.cls && s'.cls[k].sc == s.cls[k].sc
    ensures forall id: ListId | id != BinList(k) && id != BatchList(t) :: ListAt(s', id) == ListAt(s, id)
  {
    forall id: ListId | id != BinList(k) && id != BatchList(t) ensures ListAt(s', id) == ListAt(s, id) {
      match id
      case CacheList(u, d) => if u != t && u < |s.threads| { assert s'.threads[u] == s.threads[u]; }
      case BatchList(u) => if u != t && u < |s.threads| { assert s'.threads[u] == s.threads[u]; }
      case _ =>
    }
  }

  lemma EnqueueLists(g: Config, s: Sys, t: nat, k: Key, b: Addr)
    requires WfConfig(g) && Enabled(g, s, RunBin(t)) && s.threads[t].pc.bop.Enqueue? && k == s.threads[t].pc.key && b == s.threads[t].pc.bop.block
    ensures var s' := Apply(g, s, RunBin(t));
      && ListAt(s', BinList(k)) == [b] + ListAt(s, BinList(k)) && ListAt(s', BatchList(t)) == []
      && forall id | id != BinList(k) && id != BatchList(t) :: ListAt(s', id) == ListAt(s, id)
  {
    BinListsElsewhere(s, Apply(g, s, RunBin(t)), t, k);
  }

  lemma InHandNow(g: Config, s: Sys, t: nat, b: Addr)
    requires s in Good(g) && t < |s.threads| && b in HandOf(s.threads[t].pc)
    ensures b in s.place && s.place[b] == InHand(t)
  {
    HandFacts(g, s, t, b);
  }

  lemma EnqueueThreads(g: Config, s: Sys, w: map<Addr, Addr>, t: nat)
    requires MemSys(s, w) in Linked(g) && Enabled(g, s, RunBin(t)) && s.threads[t].pc.bop.Enqueue?
    ensures AllThreaded(Apply(g, s, RunBin(t)), StepWords(g, s, w, RunBin(t)))
  {
    var k, b := s.threads[t].pc.key, s.threads[t].pc.bop.block;
    InHandNow(g, s, t, b);
    PushThreaded(g, s, w, BinList(k), b);
    EnqueueLists(g, s, t, k, b);
    GrowThreads(g, s, w, Apply(g, s, RunBin(t)), w[Link(b) := Head(ListAt(s, BinList(k)))], iset{b}, InHand(t), iset{BinList(k)});
  }

  lemma DetachLists(g: Config, s: Sys, s': Sys, t: nat, k: Key, n: nat, over: nat, batch: seq<Addr>, cont: Cont)
    requires Detaches(g, s, s', t, k, n, over, batch, cont)
    ensures ListAt(s', BatchList(t)) == batch && ListAt(s', BinList(k)) == ListAt(s, BinList(k))[n..]
    ensures forall id | id != BatchList(t) && id != BinList(k) :: ListAt(s', id) == ListAt(s, id)
  {
    AfterDetachBatch(k, batch, n * SizeOf(g, k), cont);
    BinListsElsewhere(s, s', t, k);
  }

  lemma DrainThreads(g: Config, s: Sys, w: map<Addr, Addr>, t: nat)
    requires MemSys(s, w) in Linked(g) && Enabled(g, s, RunBin(t)) && s.threads[t].pc.bop.Drain?
    ensures AllThreaded(Apply(g, s, RunBin(t)), StepWords(g, s, w, RunBin(t)))
  {
    var s', k := Apply(g, s, RunBin(t)), s.threads[t].pc.key;
    var bin := s.cls[k].bin;
    KeyFacts(g, s, k);
    DrainIsDetach(g, s, s', t, k, bin);
    DetachLists(g, s, s', t, k, |bin.list|, 0, bin.list, Retry);
    assert Threaded(w, ListAt(s, BinList(k)));
    GrowThreads(g, s, w, s', w, iset{}, Live, iset{BatchList(t)});
  }

  lemma AfterDetachBatch(k: Key, batch: seq<Addr>, bytes: int, cont: Cont)
    ensures BatchOf(AfterDetach(k, batch, bytes, cont)) == batch
  {
  }

  /** The overflow loop reverses the detached prefix in memory. */
  lemma {:induction false} RelinkedThreads(w: map<Addr, Addr>, list: seq<Addr>, batch: seq<Addr>)
    requires NoDup(list) && NULL !in list && Threaded(w, batch) && forall b | b in list :: b !in batch
    ensures Threaded(Relinked(w, list, Head(batch)), Reverse(list) + batch)
    ensures OnlyAt(w, Relinked(w, list, Head(batch)), Set(list))
    decreases |list|
  {
    if list == [] {
      assert [] + batch == batch;
    } else {
      var b, w1 := list[0], w[Link(list[0]) := Head(batch)];
      ChainPush(w, b, Head(batch), batch);
      NoDupTail(list);
      assert forall x | x in list[1..] :: x in Elems(list[1..]);
      RelinkedThreads(w1, list[1..], [b] + batch);
      assert Reverse(list[1..]) + ([b] + batch) == Reverse(list) + batch;
      var w2 := Relinked(w1, list[1..], b);
      forall c: Addr | c !in Set(list) ensures Load(w2, Link(c)) == Load(w, Link(c)) {
        assert c !in Set(list[1..]) && Load(w2, Link(c)) == Load(w1, Link(c));
      }
    }
  }

  lemma SettleThreads(g: Config, s: Sys, w: map<Addr, Addr>, t: nat)
    requires MemSys(s, w) in Linked(g) && Enabled(g, s, Settle(t))
    ensures AllThreaded(Apply(g, s, Settle(t)), StepWords(g, s, w, Settle(t)))
  {
    var k := s.threads[t].pc.key;
    if s.cls[k].bin.bytes > High(g, k) { OverflowThreads(g, s, w, t, k); } else {
      OwnListsShrink(s, Apply(g, s, Settle(t)), t);
      ShrinkThreads(g, s, w, Apply(g, s, Settle(t)));
    }
  }

  lemma OverflowThreads(g: Config, s: Sys, w: map<Addr, Addr>, t: nat, k: Key)
    requires MemSys(s, w) in Linked(g) && Enabled(g, s, Settle(t)) && k == s.threads[t].pc.key && s.cls[k].bin.bytes > High(g, k)
    ensures AllThreaded(Apply(g, s, Settle(t)), StepWords(g, s, w, Settle(t)))
  {
    var s', list, cont := Apply(g, s, Settle(t)), s.cls[k].bin.list, s.threads[t].pc.cont;
    var n := DetachCount(|list|, s.cls[k].bin.bytes, SizeOf(g, k), Low(g, k));
    KeyFacts(g, s, k);
    OverflowIsDetach(g, s, s', t, k, cont, n);
    DetachLists(g, s, s', t, k, n, 1, Reverse(list[..n]), cont);
    DetachThreads(g, s, w, s', t, k, list, n);
  }

  /** Moving a prefix of a bin, reversed, into a thread's hand. */
  lemma DetachThreads(g: Config, s: Sys, w: map<Addr, Addr>, s': Sys, t: nat, k: Key, list: seq<Addr>, n: nat)
    requires MemSys(s, w) in Linked(g) && n <= |list| && list == ListAt(s, BinList(k)) && NoDup(list)
    requires ListAt(s', BatchList(t)) == Reverse(list[..n]) && ListAt(s', BinList(k)) == list[n..]
    requires forall id | id != BatchList(t) && id != BinList(k) :: ListAt(s', id) == ListAt(s, id)
    ensures AllThreaded(s', Relinked(w, list[..n], NULL))
  {
    SplitList(list, n);
    NeverNull(g, s, BinList(k));
    RelinkedThreads(w, list[..n], []);
    assert Reverse(list[..n]) + [] == Reverse(list[..n]);
    forall b | b in Set(list[..n]) ensures b in s.place && s.place[b] == InForeignBin(k) && b !in list[n..] {
      assert b in Elems(list[..n]) && b in ListAt(s, BinList(k));
      ListedPlace(g, s, BinList(k), b);
    }
    GrowThreads(g, s, w, s', Relinked(w, list[..n], NULL), Set(list[..n]), InForeignBin(k), iset{BatchList(t)});
  }

  lemma NeverNull(g: Config, s: Sys, id: ListId)
    requires s in Good(g)
    ensures NULL !in ListAt(s, id)
  {
    if NULL in ListAt(s, id) {
      ListedPlace(g, s, id, NULL);
      var k, p := PlacedHasSlab(g, s, NULL);
      BlockBounds(p, SizeOf(g, k), NULL);
    }
  }

  // ---- size classes ----

  lemma {:induction false} InitialisedThreads(w: map<Addr, Addr>, p: Addr, size: nat, n: nat)
    requires n <= Capacity(size)
    ensures Threaded(Initialised(w, p, size, n), InitList(p, size, n))
    ensures OnlyAt(w, Initialised(w, p, size, n), BlocksOf(p, size))
  {
    if n > 0 {
      InitialisedThreads(w, p, size, n - 1);
      InitHead(p, size, n);
      var b, w1, list := BlockAt(p, size, n - 1), Initialised(w, p, size, n - 1), InitList(p, size, n - 1);
      ChainPush(w1, b, Head(list), list);
      OnlyAtWrite(w, w1, BlocksOf(p, size), b, Head(list));
    }
  }

  lemma InitHead(p: Addr, size: nat, n: nat)
    requires 0 < n <= Capacity(size)
    ensures BlockAt(p, size, n - 1) != NULL && IsBlock(p, size, BlockAt(p, size, n - 1))
    ensures BlockAt(p, size, n - 1) !in InitList(p, size, n - 1)
  {
    InitListProperties(p, size, n);
    NoDupTail(InitList(p, size, n));
    assert BlockAt(p, size, n - 1) !in Elems(InitList(p, size, n)[1..]);
  }

  /** Pushing the blocks one by one, in memory, is PushAll. */
  lemma {:induction false} PushWordsThread(w: map<Addr, Addr>, c: ClassState, size: nat, own: map<Addr, Addr>, blocks: seq<Addr>)
    requires Ok(c, size) && BatchOk(c, size, own, blocks)
    requires forall b | b in blocks :: Owner(own, b) in c.free
    requires forall p :: Threaded(w, FreeOf(c, p))
    ensures forall p :: Threaded(PushWords(w, c, own, blocks), FreeOf(PushAll(c, own, blocks), p))
    ensures OnlyAt(w, PushWords(w, c, own, blocks), Set(blocks))
    decreases |blocks|
  {
    if blocks != [] {
      var b, p := blocks[0], Owner(own, blocks[0]);
      var d, w1 := Push(c, p, b), w[Link(b) := Head(FreeOf(c, p))];
      assert Outstanding(c, size, p, b);
      PushedThread(w, c, size, p, b);
      PushProperties(c, size, p, b);
      BatchTail(c, size, own, blocks);
      PushWordsThread(w1, d, size, own, blocks[1..]);
      var w2 := PushWords(w1, d, own, blocks[1..]);
      forall x: Addr | x !in Set(blocks) ensures Load(w2, Link(x)) == Load(w, Link(x)) {
        assert x !in Set(blocks[1..]) && Load(w2, Link(x)) == Load(w1, Link(x));
      }
    }
  }

  lemma PushedThread(w: map<Addr, Addr>, c: ClassState, size: nat, p: Addr, b: Addr)
    requires Ok(c, size) && Outstanding(c, size, p, b) && p in c.free && forall q :: Threaded(w, FreeOf(c, q))
    ensures forall q :: Threaded(w[Link(b) := Head(FreeOf(c, p))], FreeOf(Push(c, p, b), q))
  {
    assert SlabOk(p, size, FreeOf(c, p));
    BlockBounds(p, size, b);
    FreeBlockOwner(c, size, p, b);
    var w1 := w[Link(b) := Head(FreeOf(c, p))];
    forall q ensures Threaded(w1, FreeOf(Push(c, p, b), q)) {
      assert Threaded(w, FreeOf(c, q));
      if q == p {
        ChainPush(w, b, Head(FreeOf(c, p)), FreeOf(c, p));
      } else {
        assert b in FreeOf(c, q) ==> q in c.slabs && b in FreeSet(c);
        ChainFrame(w, w1, Head(FreeOf(c, q)), FreeOf(c, q));
      }
    }
  }

  /** Only class k's slabs and thread t's pc change, and t ends up with no batch. */
  lemma ClassStepLists(s: Sys, s': Sys, t: nat, k: Key)
    requires t < |s.threads| && |s'.threads| == |s.threads| && s'.threads[t].cache == s.threads[t].cache
    requires forall u | 0 <= u < |s.threads| && u != t :: s'.threads[u] == s.threads[u]
    requires s'.cls.Keys == s.cls.Keys && (forall j | j in s.cls && j != k :: s'.cls[j] == s.cls[j])
    requires k in s.cls && s'.cls[k].bin == s.cls[k].bin && BatchOf(s'.threads[t].pc) == []
    ensures forall id: ListId | (id.FreeList? ==> id.key != k) && id != BatchList(t) :: ListAt(s', id) == ListAt(s, id)
    ensures ListAt(s', BatchList(t)) == [] && forall p :: ListAt(s', FreeList(k, p)) == FreeOf(s'.cls[k].sc, p)
  {
    forall id: ListId | (id.FreeList? ==> id.key != k) && id != BatchList(t) ensures ListAt(s', id) == ListAt(s, id) {
      match id
      case CacheList(u, d) => if u != t && u < |s.threads| { assert s'.threads[u] == s.threads[u]; }
      case BatchList(u) => if u != t && u < |s.threads| { assert s'.threads[u] == s.threads[u]; }
      case _ =>
    }
  }

  lemma TakeLists(g: Config, s: Sys, t: nat, r: Taken, otherwise: Pc, k: Key)
    requires t < |s.threads| && s.threads[t].pc.InSc? && k == s.threads[t].pc.key && k in s.cls
    requires BatchOf(s.threads[t].pc) == [] && BatchOf(otherwise) == []
    ensures forall p :: ListAt(TakeBlock(g, s, t, r, otherwise), FreeList(k, p)) == FreeOf(if r.block == NULL then s.cls[k].sc else r.state, p)
    ensures forall id: ListId | !(id.FreeList? && id.key == k) :: ListAt(TakeBlock(g, s, t, r, otherwise), id) == ListAt(s, id)
  {
    var s' := TakeBlock(g, s, t, r, otherwise);
    ClassStepLists(s, s', t, k);
  }

  lemma ExistingLists(c: ClassState)
    ensures forall p :: IsSuffix(FreeOf(AllocateExisting(c).state, p), FreeOf(c, p))
  {
  }

  lemma GrownLists(c: ClassState, size: nat, p: Addr)
    requires Ok(c, size) && AtMostOneEmpty(c, size) && AllocateExisting(c).block == NULL && FreshBase(c, Some(p))
    ensures InitList(p, size, Capacity(size)) != [] && Allocate(c, size, Some(p)).block != NULL
    ensures forall q :: FreeOf(Allocate(c, size, Some(p)).state, q) == if q == p then InitList(p, size, Capacity(size))[1..] else FreeOf(c, q)
  {
    InitListProperties(p, size, Capacity(size));
    AllocateProperties(c, size, Some(p));
    AllocateExistingProperties(c, size);
  }

  lemma ProbeThreads(g: Config, s: Sys, w: map<Addr, Addr>, t: nat, k: Key, otherwise: Pc)
    requires MemSys(s, w) in Linked(g) && t < |s.threads| && s.threads[t].pc.InSc? && k == s.threads[t].pc.key && k in s.cls
    requires BatchOf(s.threads[t].pc) == [] && BatchOf(otherwise) == []
    ensures AllThreaded(TakeBlock(g, s, t, AllocateExisting(s.cls[k].sc), otherwise), w)
  {
    var c := s.cls[k].sc;
    var s' := TakeBlock(g, s, t, AllocateExisting(c), otherwise);
    TakeLists(g, s, t, AllocateExisting(c), otherwise, k);
    ExistingLists(c);
    forall id ensures IsSuffix(ListAt(s', id), ListAt(s, id)) {
      if id.FreeList? && id.key == k { assert ListAt(s, id) == FreeOf(c, id.slab); }
    }
    ShrinkThreads(g, s, w, s');
  }

  /** A new slab: its blocks are linked, and the first is taken at once. */
  lemma NewSlabThreads(g: Config, s: Sys, w: map<Addr, Addr>, t: nat, k: Key, p: Addr)
    requires MemSys(s, w) in Linked(g) && t < |s.threads| && s.threads[t].pc.InSc? && k == s.threads[t].pc.key && k in s.cls
    requires BatchOf(s.threads[t].pc) == [] && FreshRegion(s, Some(p)) && AllocateExisting(s.cls[k].sc).block == NULL
    requires Capacity(SizeOf(g, k)) > 0
    ensures AllThreaded(TakeBlock(g, s, t, Allocate(s.cls[k].sc, SizeOf(g, k), Some(p)), Idle),
                        Initialised(w, p, SizeOf(g, k), Capacity(SizeOf(g, k))))
  {
    var c, size := s.cls[k].sc, SizeOf(g, k);
    var s', w' := TakeBlock(g, s, t, Allocate(c, size, Some(p)), Idle), Initialised(w, p, size, Capacity(size));
    KeyFacts(g, s, k);
    FreshForClass(s, k, Some(p));
    GrownLists(c, size, p);
    TakeLists(g, s, t, Allocate(c, size, Some(p)), Idle, k);
    InitialisedThreads(w, p, size, Capacity(size));
    var l := InitList(p, size, Capacity(size));
    SuffixThreaded(w', w', l, l[1..], iset{});
    forall b | b in BlocksOf(p, size) ensures b !in s.place { FreshBlockIsNew(g, s, p, size, b); }
    forall id | id != FreeList(k, p) ensures ListAt(s', id) == ListAt(s, id) {}
    forall id, b | id != FreeList(k, p) && b in ListAt(s', id) ensures b in s.place { ListedPlace(g, s, id, b); }
    GrowThreads(g, s, w, s', w', BlocksOf(p, size), Live, iset{FreeList(k, p)});
  }

  lemma AllocateThreads(g: Config, s: Sys, w: map<Addr, Addr>, t: nat, os: Option<Addr>)
    requires MemSys(s, w) in Linked(g) && Enabled(g, s, RunSc(t, os)) && (s.threads[t].pc.op.Plain? || s.threads[t].pc.op.Grow?)
    ensures AllThreaded(Apply(g, s, RunSc(t, os)), StepWords(g, s, w, RunSc(t, os)))
  {
    var k := s.threads[t].pc.key;
    HasCapacity(g, s, k);
    RunScIsTake(g, s, w, t, os, k);
    TakenThreads(g, s, w, t, k, os);
  }

  lemma HasCapacity(g: Config, s: Sys, k: Key)
    requires s in Good(g) && k in s.cls
    ensures Capacity(SizeOf(g, k)) > 0
  {
    KeyFacts(g, s, k);
  }

  lemma TakenThreads(g: Config, s: Sys, w: map<Addr, Addr>, t: nat, k: Key, os: Option<Addr>)
    requires MemSys(s, w) in Linked(g) && t < |s.threads| && s.threads[t].pc.InSc? && k == s.threads[t].pc.key && k in s.cls
    requires BatchOf(s.threads[t].pc) == [] && FreshRegion(s, os) && Capacity(SizeOf(g, k)) > 0
    ensures AllThreaded(TakeBlock(g, s, t, Allocate(s.cls[k].sc, SizeOf(g, k), os), Idle),
                        if AllocateExisting(s.cls[k].sc).block == NULL && os.Some? then Initialised(w, os.value, SizeOf(g, k), Capacity(SizeOf(g, k))) else w)
  {
    if AllocateExisting(s.cls[k].sc).block == NULL && os.Some? {
      NewSlabThreads(g, s, w, t, k, os.value);
    } else {
      ProbeThreads(g, s, w, t, k, Idle);
    }
  }

  lemma RunScIsTake(g: Config, s: Sys, w: map<Addr, Addr>, t: nat, os: Option<Addr>, k: Key)
    requires WfConfig(g) && Enabled(g, s, RunSc(t, os)) && (s.threads[t].pc.op.Plain? || s.threads[t].pc.op.Grow?)
    requires k == s.threads[t].pc.key && Capacity(SizeOf(g, k)) > 0
    ensures Apply(g, s, RunSc(t, os)) == TakeBlock(g, s, t, Allocate(s.cls[k].sc, SizeOf(g, k), os), Idle)
    ensures StepWords(g, s, w, RunSc(t, os)) ==
      if AllocateExisting(s.cls[k].sc).block == NULL && os.Some? then Initialised(w, os.value, SizeOf(g, k), Capacity(SizeOf(g, k))) else w
  {
  }

  lemma FreeBatchLists(c: ClassState, size: nat, own: map<Addr, Addr>, blocks: seq<Addr>, p: Addr)
    requires forall b | b in blocks :: Owner(own, b) in c.free
    ensures FreeOf(FreeBatch(c, size, own, blocks), p) in {FreeOf(PushAll(c, own, blocks), p), []}
  {
  }

  lemma GiveThreads(g: Config, s: Sys, w: map<Addr, Addr>, s': Sys, t: nat, k: Key, blocks: seq<Addr>, sc: ClassState, cont: Cont, peak: int)
    requires MemSys(s, w) in Linked(g) && Gives(g, s, s', t, k, blocks, sc, cont, peak)
    requires forall b | b in blocks :: Owner(Owners(s), b) in s.cls[k].sc.free
    ensures AllThreaded(s', PushWords(w, s.cls[k].sc, Owners(s), blocks))
  {
    var grown := iset id: ListId | id.FreeList? && id.key == k;
    GivenThreads(g, s, w, t, k, blocks);
    GiveLists(g, s, s', t, k, blocks, sc, cont, peak);
    forall id | id in grown ensures Threaded(PushWords(w, s.cls[k].sc, Owners(s), blocks), ListAt(s', id)) {
      FreeBatchLists(s.cls[k].sc, SizeOf(g, k), Owners(s), blocks, id.slab);
    }
    GrowThreads(g, s, w, s', PushWords(w, s.cls[k].sc, Owners(s), blocks), Set(blocks), InHand(t), grown);
  }

  lemma GivenThreads(g: Config, s: Sys, w: map<Addr, Addr>, t: nat, k: Key, blocks: seq<Addr>)
    requires MemSys(s, w) in Linked(g) && k in s.cls && t < |s.threads| && HandOf(s.threads[t].pc) == blocks
    requires BatchOk(s.cls[k].sc, SizeOf(g, k), Owners(s), blocks)
    requires forall b | b in blocks :: Owner(Owners(s), b) in s.cls[k].sc.free
    ensures forall p :: Threaded(PushWords(w, s.cls[k].sc, Owners(s), blocks), FreeOf(PushAll(s.cls[k].sc, Owners(s), blocks), p))
    ensures Threaded(PushWords(w, s.cls[k].sc, Owners(s), blocks), [])
    ensures OnlyAt(w, PushWords(w, s.cls[k].sc, Owners(s), blocks), Set(blocks))
    ensures forall b | b in Set(blocks) :: b in s.place && s.place[b] == InHand(t)
  {
    KeyFacts(g, s, k);
    forall p ensures Threaded(w, FreeOf(s.cls[k].sc, p)) { assert ListAt(s, FreeList(k, p)) == FreeOf(s.cls[k].sc, p); }
    PushWordsThread(w, s.cls[k].sc, SizeOf(g, k), Owners(s), blocks);
    forall b | b in Set(blocks) ensures b in s.place && s.place[b] == InHand(t) { HandFacts(g, s, t, b); }
  }

  lemma GiveLists(g: Config, s: Sys, s': Sys, t: nat, k: Key, blocks: seq<Addr>, sc: ClassState, cont: Cont, peak: int)
    requires Gives(g, s, s', t, k, blocks, sc, cont, peak)
    ensures forall p :: ListAt(s', FreeList(k, p)) == FreeOf(sc, p)
    ensures ListAt(s', BatchList(t)) == []
    ensures forall id: ListId | (id.FreeList? ==> id.key != k) && id != BatchList(t) :: ListAt(s', id) == ListAt(s, id)
  {
    ClassStepLists(s, s', t, k);
  }

  lemma RunScThreads(g: Config, s: Sys, w: map<Addr, Addr>, t: nat, os: Option<Addr>)
    requires MemSys(s, w) in Linked(g) && Enabled(g, s, RunSc(t, os))
    ensures AllThreaded(Apply(g, s, RunSc(t, os)), StepWords(g, s, w, RunSc(t, os)))
  {
    var k, op := s.threads[t].pc.key, s.threads[t].pc.op;
    match op
    case Plain => AllocateThreads(g, s, w, t, os);
    case Grow => AllocateThreads(g, s, w, t, os);
    case Probe1 => ProbeThreads(g, s, w, t, k, WantBin(k, Drain));
    case Probe2 => ProbeThreads(g, s, w, t, k, WantSc(k, Grow));
    case _ => GiveBackThreads(g, s, w, t, os, k, op);
  }

  lemma GiveBackThreads(g: Config, s: Sys, w: map<Addr, Addr>, t: nat, os: Option<Addr>, k: Key, op: ScOp)
    requires MemSys(s, w) in Linked(g) && Enabled(g, s, RunSc(t, os)) && s.threads[t].pc == InSc(k, op) && (op.FreeOne? || op.FreeMany?)
    ensures AllThreaded(Apply(g, s, RunSc(t, os)), StepWords(g, s, w, RunSc(t, os)))
  {
    GiveBackGives(g, s, t, k, op);
    RunScIsGiveBack(g, s, t, os, k, op);
    var sc := FreeBatch(s.cls[k].sc, SizeOf(g, k), Owners(s), OpBlocks(op));
    GiveThreads(g, s, w, Apply(g, s, RunSc(t, os)), t, k, OpBlocks(op), sc, op.cont, Peak(g, k, s.cls[k].(scLock := None), sc));
  }

  lemma StepThreads(g: Config, s: Sys, w: map<Addr, Addr>, a: Action)
    requires MemSys(s, w) in Linked(g) && Enabled(g, s, a)
    ensures AllThreaded(Apply(g, s, a), StepWords(g, s, w, a))
  {
    match a
    case Attach(t, node, use) =>
      AttachLists(g, s, t, node, use);
      ShrinkThreads(g, s, w, Apply(g, s, a));
    case FlushNext(t) =>
      FlushNextLists(g, s, t);
      ShrinkThreads(g, s, w, Apply(g, s, a));
    case Malloc(t, c) =>
      MallocLists(g, s, t, c);
      ShrinkThreads(g, s, w, Apply(g, s, a));
    case Free(t, b) => FreeThreads(g, s, w, t, b);
    case RunBin(t) => if s.threads[t].pc.bop.Enqueue? { EnqueueThreads(g, s, w, t); } else { DrainThreads(g, s, w, t); }
    case Settle(t) => SettleThreads(g, s, w, t);
    case RunSc(t, os) => RunScThreads(g, s, w, t, os);
    case _ =>
      QuietLists(g, s, a);
      ShrinkThreads(g, s, w, Apply(g, s, a));
  }

  // ---- users' payloads ----

  /** A byte a user may write lies in a mapped slab and in no other block, whoever has that. */
  lemma PayloadIsUsers(g: Config, s: Sys, b: Addr, x: Addr, c: Addr)
    requires s in Good(g) && b in s.live && InPayload(s, b, x)
    ensures InSlab(s, x) && b in s.place && s.place[b] == Live && (c in s.place && c != b ==> x != Link(c))
  {
    var k := LiveBlock(g, s, b);
    SlabFacts(g, s, k, s.hdr[b].slab);
    BlockBounds(s.hdr[b].slab, SizeOf(g, k), b);
    assert InSystem(s, k, s.hdr[b].slab);
    if c in s.place && c != b {
      var j, q := PlacedHasSlab(g, s, c);
      BlocksNeverOverlap(g, s, b, k, s.hdr[b].slab, c, j, q);
    }
  }

  /** The blocks whose links a step may write. */
  ghost function Written(g: Config, s: Sys, a: Action): iset<Addr>
    requires WfConfig(g) && Enabled(g, s, a)
  {
    match a
    case Free(t, b) => iset{b}
    case RunBin(t) => Set(HandOf(s.threads[t].pc))
    case Settle(t) => Set(s.cls[s.threads[t].pc.key].bin.list)
    case RunSc(t, os) =>
      var k, op := s.threads[t].pc.key, s.threads[t].pc.op;
      if OpBlocks(op) != [] then Set(OpBlocks(op))
      else if (op.Plain? || op.Grow?) && AllocateExisting(s.cls[k].sc).block == NULL && os.Some? then BlocksOf(os.value, SizeOf(g, k))
      else iset{}
    case _ => iset{}
  }

  lemma WritesOnly(g: Config, s: Sys, w: map<Addr, Addr>, a: Action)
    requires MemSys(s, w) in Linked(g) && Enabled(g, s, a)
    ensures OnlyAt(w, StepWords(g, s, w, a), Written(g, s, a))
  {
    match a
    case Settle(t) =>
      var k := s.threads[t].pc.key;
      if s.cls[k].bin.bytes > High(g, k) { OverflowWrites(g, s, w, k, DetachCount(|s.cls[k].bin.list|, s.cls[k].bin.bytes, SizeOf(g, k), Low(g, k))); }
    case RunSc(t, os) => RunScWrites(g, s, w, t, os);
    case _ =>
  }

  lemma OverflowWrites(g: Config, s: Sys, w: map<Addr, Addr>, k: Key, n: nat)
    requires MemSys(s, w) in Linked(g) && k in s.cls && n <= |s.cls[k].bin.list|
    ensures OnlyAt(w, Relinked(w, s.cls[k].bin.list[..n], NULL), Set(s.cls[k].bin.list))
  {
    var list := s.cls[k].bin.list;
    KeyFacts(g, s, k);
    NeverNull(g, s, BinList(k));
    RelinkedThreads(w, list[..n], []);
    assert forall b | b !in Set(list) :: b !in Set(list[..n]);
  }

  lemma RunScWrites(g: Config, s: Sys, w: map<Addr, Addr>, t: nat, os: Option<Addr>)
    requires MemSys(s, w) in Linked(g) && Enabled(g, s, RunSc(t, os))
    ensures OnlyAt(w, StepWords(g, s, w, RunSc(t, os)), Written(g, s, RunSc(t, os)))
  {
    var k, op := s.threads[t].pc.key, s.threads[t].pc.op;
    ThreadFacts(g, s, t);
    if op.FreeOne? || op.FreeMany? {
      HandIsBatch(g, s, t, k, OpBlocks(op));
      GiveBackGives(g, s, t, k, op);
      GivenThreads(g, s, w, t, k, OpBlocks(op));
    } else if os.Some? {
      InitialisedThreads(w, os.value, SizeOf(g, k), Capacity(SizeOf(g, k)));
    }
  }

  /** No step writes into the payload of a block that is the user's before and after it. */
  lemma WritesElsewhere(g: Config, s: Sys, a: Action, b: Addr, x: Addr, c: Addr)
    requires s in Good(g) && Enabled(g, s, a) && b in s.live && InPayload(s, b, x) && (a.Free? ==> a.block != b)
    requires c in Written(g, s, a)
    ensures x != Link(c)
  {
    PayloadIsUsers(g, s, b, x, c);
    match a
    case Free(t, f) => assert f in Holds(s, Live);
    case RunBin(t) => HandFacts(g, s, t, c);
    case Settle(t) => ListedPlace(g, s, BinList(s.threads[t].pc.key), c);
    case RunSc(t, os) =>
      if OpBlocks(s.threads[t].pc.op) != [] { HandFacts(g, s, t, c); } else { NewSlabElsewhere(g, s, b, x, os.value, SizeOf(g, s.threads[t].pc.key), c); }
    case _ =>
  }

  lemma NewSlabElsewhere(g: Config, s: Sys, b: Addr, x: Addr, p: Addr, size: nat, c: Addr)
    requires s in Good(g) && b in s.live && InPayload(s, b, x) && FreshRegion(s, Some(p)) && IsBlock(p, size, c)
    ensures x != Link(c)
  {
    var k := LiveBlock(g, s, b);
    SlabFacts(g, s, k, s.hdr[b].slab);
    BlockBounds(s.hdr[b].slab, SizeOf(g, k), b);
    BlockBounds(p, size, c);
    assert InSystem(s, k, s.hdr[b].slab);
  }

  lemma StepKeepsPayload(g: Config, s: Sys, w: map<Addr, Addr>, a: Action, w': map<Addr, Addr>, b: Addr, x: Addr)
    requires MemSys(s, w) in Linked(g) && Enabled(g, s, a) && WordsFollow(g, s, w, a, Apply(g, s, a), w')
    requires b in s.live && b in Apply(g, s, a).live && InPayload(s, b, x)
    ensures InPayload(Apply(g, s, a), b, x) && Load(w', x) == Load(w, x)
  {
    StepKeeps(g, s, a);
    LiveChanges(g, s, a);
    PayloadIsUsers(g, s, b, x, b);
    PayloadIsUsers(g, Apply(g, s, a), b, x, b);
    if a.Free? { FreeChangesLive(g, s, a.t, a.block); }
    StepWordsKeep(g, s, w, a, b, x);
  }

  lemma StepWordsKeep(g: Config, s: Sys, w: map<Addr, Addr>, a: Action, b: Addr, x: Addr)
    requires MemSys(s, w) in Linked(g) && Enabled(g, s, a) && b in s.live && (a.Free? ==> a.block != b) && InPayload(s, b, x)
    ensures Load(StepWords(g, s, w, a), x) == Load(w, x)
  {
    WritesOnly(g, s, w, a);
    var c := x - HEADER;
    if c in Written(g, s, a) { WritesElsewhere(g, s, a, b, x, c); }
    assert Load(StepWords(g, s, w, a), Link(c)) == Load(w, Link(c));
  }

  // ---- the theorems ----

  /** Whatever step is taken, whatever users write where they may and whatever happens outside the slabs: every
      free list, cache bin, foreign bin and batch is still threaded through memory. */
  lemma MemoryKeeps(g: Config, m: MemSys, e: MemEvent, m': MemSys)
    requires m in Linked(g) && m' in Next(g, m, e)
    ensures m' in Linked(g)
  {
    match e
    case Act(a) => ActKeeps(g, m, a, m');
    case UserWrite(b, at, value) =>
      forall id ensures Threaded(m'.words, ListAt(m'.sys, id)) {
        forall c | c in ListAt(m.sys, id) ensures Link(c) != at {
          ListedPlace(g, m.sys, id, c);
          PayloadIsUsers(g, m.sys, b, at, c);
        }
        assert Threaded(m.words, ListAt(m.sys, id));
        ChainFrame(m.words, m'.words, Head(ListAt(m.sys, id)), ListAt(m.sys, id));
      }
    case Outside =>
      forall id ensures Threaded(m'.words, ListAt(m'.sys, id)) {
        forall c | c in ListAt(m.sys, id) ensures Load(m'.words, Link(c)) == Load(m.words, Link(c)) {
          ListedPlace(g, m.sys, id, c);
          LinkInSlab(g, m.sys, c);
        }
        assert Threaded(m.words, ListAt(m.sys, id));
        ChainFrame(m.words, m'.words, Head(ListAt(m.sys, id)), ListAt(m.sys, id));
      }
  }

  lemma ActKeeps(g: Config, m: MemSys, a: Action, m': MemSys)
    requires m in Linked(g) && m' in Next(g, m, Act(a))
    ensures m' in Linked(g)
  {
    StepKeeps(g, m.sys, a);
    StepThreads(g, m.sys, m.words, a);
    var w := StepWords(g, m.sys, m.words, a);
    forall id ensures Threaded(m'.words, ListAt(m'.sys, id)) {
      assert Threaded(w, ListAt(m'.sys, id));
      forall c | c in ListAt(m'.sys, id) ensures Load(m'.words, Link(c)) == Load(w, Link(c)) {
        ListedPlace(g, m'.sys, id, c);
        FollowsAtBlocks(g, m.sys, m.words, a, m'.words, c);
      }
      ChainFrame(w, m'.words, Head(ListAt(m'.sys, id)), ListAt(m'.sys, id));
    }
  }

  /** A run from the start, with any contents of memory. */
  ghost predicate IsMemRun(g: Config, ms: seq<MemSys>, es: seq<MemEvent>)
    requires WfConfig(g)
  {
    |ms| == |es| + 1 && ms[0].sys == Init(g) && forall i {:trigger StepAt(g, ms, es, i)} | 0 <= i < |es| :: StepAt(g, ms, es, i)
  }

  ghost predicate StepAt(g: Config, ms: seq<MemSys>, es: seq<MemEvent>, i: nat)
    requires WfConfig(g) && i < |es| && |ms| == |es| + 1
  {
    ms[i + 1] in Next(g, ms[i], es[i])
  }

  lemma {:induction false} RunLinked(g: Config, ms: seq<MemSys>, es: seq<MemEvent>, i: nat)
    requires WfConfig(g) && IsMemRun(g, ms, es) && i <= |es|
    ensures ms[i] in Linked(g)
  {
    if i == 0 {
      InitIsGood(g);
      forall id ensures ListAt(Init(g), id) == [] {}
    } else {
      RunLinked(g, ms, es, i - 1);
      assert StepAt(g, ms, es, i - 1);
      MemoryKeeps(g, ms[i - 1], es[i - 1], ms[i]);
    }
  }

  /** Reading memory from a list's head finds its blocks in order, each in a mapped slab, then null, and nothing
      else: the links describe one list only, and every next pointer the code reads is the next block's. */
  lemma WalkFindsTheList(g: Config, ms: seq<MemSys>, es: seq<MemEvent>, i: nat, id: ListId, walk: seq<Addr>)
    requires WfConfig(g) && IsMemRun(g, ms, es) && i <= |es|
    requires Chain(ms[i].words, Head(ListAt(ms[i].sys, id)), walk)
    ensures walk == ListAt(ms[i].sys, id)
    ensures forall j | 0 <= j < |walk| :: InSlab(ms[i].sys, Link(walk[j])) && Load(ms[i].words, Link(walk[j])) == Head(walk[j + 1..])
  {
    RunLinked(g, ms, es, i);
    var s, w := ms[i].sys, ms[i].words;
    assert Threaded(w, ListAt(s, id));
    ChainUnique(w, Head(ListAt(s, id)), walk, ListAt(s, id));
    forall j | 0 <= j < |walk| ensures InSlab(s, Link(walk[j])) && Load(w, Link(walk[j])) == Head(walk[j + 1..]) {
      ListedPlace(g, s, id, walk[j]);
      LinkInSlab(g, s, walk[j]);
      ChainSuffix(w, Head(walk), walk, j);
      assert walk[j..][1..] == walk[j + 1..];
    }
  }

  /** The last value that events i up to j wrote at x, or what was there before. */
  function LastWrite(es: seq<MemEvent>, i: nat, j: nat, x: Addr, before: Addr): Addr
    requires j <= |es|
  {
    if j <= i then before else WrittenBy(es[j - 1], x, LastWrite(es, i, j - 1, x, before))
  }

  function WrittenBy(e: MemEvent, x: Addr, before: Addr): Addr
  {
    if e.UserWrite? && e.at == x then e.value else before
  }

  lemma OnlyUsersWriteAt(g: Config, ms: seq<MemSys>, es: seq<MemEvent>, j: nat, b: Addr, x: Addr)
    requires WfConfig(g) && IsMemRun(g, ms, es) && j < |es|
    requires b in ms[j].sys.live && b in ms[j + 1].sys.live && InPayload(ms[j].sys, b, x)
    ensures InPayload(ms[j + 1].sys, b, x) && Load(ms[j + 1].words, x) == WrittenBy(es[j], x, Load(ms[j].words, x))
  {
    RunLinked(g, ms, es, j);
    assert StepAt(g, ms, es, j);
    OnlyUsersWrite(g, ms[j], es[j], ms[j + 1], b, x);
  }

  /** While a block is the user's, every byte of it reads what users last wrote there, through any number of
      steps of any threads, mappings and unmappings: the allocator never writes into a live block. */
  lemma {:induction false} UsersReadTheirWrites(g: Config, ms: seq<MemSys>, es: seq<MemEvent>, i: nat, j: nat, b: Addr, x: Addr)
    requires WfConfig(g) && IsMemRun(g, ms, es) && i <= j <= |es|
    requires forall n | i <= n <= j :: b in ms[n].sys.live
    requires InPayload(ms[i].sys, b, x)
    ensures InPayload(ms[j].sys, b, x) && Load(ms[j].words, x) == LastWrite(es, i, j, x, Load(ms[i].words, x))
    decreases j
  {
    if i < j {
      UsersReadTheirWrites(g, ms, es, i, j - 1, b, x);
      OnlyUsersWriteAt(g, ms, es, j - 1, b, x);
    }
  }

  lemma OnlyUsersWrite(g: Config, m: MemSys, e: MemEvent, m': MemSys, b: Addr, x: Addr)
    requires m in Linked(g) && m' in Next(g, m, e) && b in m.sys.live && b in m'.sys.live && InPayload(m.sys, b, x)
    ensures InPayload(m'.sys, b, x) && Load(m'.words, x) == WrittenBy(e, x, Load(m.words, x))
  {
    match e
    case Act(a) => StepKeepsPayload(g, m.sys, m.words, a, m'.words, b, x);
    case UserWrite(_, _, _) =>
    case Outside => PayloadIsUsers(g, m.sys, b, x, b);
  }
}
