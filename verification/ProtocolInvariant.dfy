/** The inductive invariant of the step system, and how each part of it is carried across a step that
    touches one thread and one size class. */
module ProtocolInvariant {
  import opened Arithmetic
  import opened Lists
  import opened Layout
  import opened SizeClassSpec
  import opened ForeignSpec
  import opened Protocol
  import T = SizeClassTable

  // ---- one size class, one thread ----

  /** A size class with its bin, on its own. */
  ghost predicate KeyInv(g: Config, k: Key, ks: KeyState)
  {
    && Ok(ks.sc, SizeOf(g, k))
    && AtMostOneEmpty(ks.sc, SizeOf(g, k))
    && NoDup(ks.bin.list)
    && ks.bin.bytes == |ks.bin.list| * SizeOf(g, k)
    && DrainsPaidFor(g, k, ks.bin)
    && SlabsJustified(g, k, ks)
  }

  /** Each overflow drain has taken more than high - low bytes that were enqueued before. */
  ghost predicate DrainsPaidFor(g: Config, k: Key, bin: Bin)
  {
    bin.enqueued * SizeOf(g, k) >= bin.bytes + bin.overflows * (High(g, k) - Low(g, k) + 1)
  }

  ghost predicate SlabsJustified(g: Config, k: Key, ks: KeyState)
  {
    |ks.sc.slabs| == 0 || (|ks.sc.slabs| - 1) * Capacity(SizeOf(g, k)) < ks.peak
  }

  ghost predicate CacheBinOk(g: Config, k: Key, bin: CacheBin)
  {
    NoDup(bin.list) && bin.bytes == |bin.list| * SizeOf(g, k) && bin.bytes <= High(g, k)
  }

  ghost predicate CacheOk(g: Config, cache: Cache)
  {
    cache.Cache? ==>
      && cache.node < g.nodes
      && |cache.bins| == |g.sizes|
      && forall c | 0 <= c < |cache.bins| :: CacheBinOk(g, Key(cache.node, c), cache.bins[c])
  }

  ghost predicate EmptyCache(cache: Cache)
  {
    cache.Cache? ==> forall c | 0 <= c < |cache.bins| :: cache.bins[c].list == []
  }

  /** A cache waiting to replace the current one is valid and holds nothing. */
  ghost predicate NextOk(g: Config, cache: Cache, next: Cache)
  {
    cache.Cache? && CacheOk(g, next) && EmptyCache(next)
  }

  ghost predicate ContOk(g: Config, cache: Cache, cont: Cont)
  {
    cont.Flushing? ==> NextOk(g, cache, cont.next)
  }

  ghost predicate PcOk(g: Config, pc: Pc, cache: Cache)
  {
    match pc
    case Idle => true
    case Faulted => false
    case Flush(next) => NextOk(g, cache, next)
    case WantSc(k, op) => IsKey(g, k) && OpOk(g, op, cache)
    case InSc(k, op) => IsKey(g, k) && OpOk(g, op, cache)
    case WantBin(k, op) => IsKey(g, k) && (op.Enqueue? ==> ContOk(g, cache, op.cont))
    case InBin(k, op) => IsKey(g, k) && (op.Enqueue? ==> ContOk(g, cache, op.cont))
    case Subtract(k, batch, bytes, cont) =>
      IsKey(g, k) && ContOk(g, cache, cont) && batch != [] && bytes == |batch| * SizeOf(g, k)
    case Pushed(k, cont) => IsKey(g, k) && ContOk(g, cache, cont)
    case Added(k, cont) => IsKey(g, k) && ContOk(g, cache, cont)
    case _ => IsKey(g, pc.key)
  }

  ghost predicate OpOk(g: Config, op: ScOp, cache: Cache)
  {
    (op.FreeOne? || op.FreeMany?) ==> ContOk(g, cache, op.cont)
  }

  ghost predicate ThreadInv(g: Config, th: Thread)
  {
    PcOk(g, th.pc, th.cache) && CacheOk(g, th.cache) && NoDup(HandOf(th.pc))
  }

  /** Threads and classes that satisfy their invariants. As with `Good` below, lemmas speak of membership,
      so that the verifier passes the invariant on as one fact rather than re-proving each of its parts. */
  ghost function GoodThreads(g: Config): iset<Thread>
  {
    iset th | ThreadInv(g, th)
  }

  ghost function GoodClasses(g: Config, k: Key): iset<KeyState>
  {
    iset ks | KeyInv(g, k, ks)
  }

  // ---- the whole system ----

  ghost predicate Shape(g: Config, s: Sys)
  {
    && (forall k :: k in s.cls <==> IsKey(g, k))
    && |s.foreign| == g.nodes
    && |s.threads| == g.threads
    && (forall k {:trigger s.cls[k] in GoodClasses(g, k)} | k in s.cls :: s.cls[k] in GoodClasses(g, k))
    && (forall t {:trigger s.threads[t] in GoodThreads(g)} | 0 <= t < |s.threads| :: s.threads[t] in GoodThreads(g))
  }

  /** Slabs of the whole system do not overlap. */
  ghost predicate SlabsApart(s: Sys)
  {
    forall k, j, p, q {:trigger InSystem(s, k, p), InSystem(s, j, q)}
      | InSystem(s, k, p) && InSystem(s, j, q) && (k != j || p != q) :: Apart(p, q)
  }

  /** A mutex is held exactly by the thread whose pc is inside its critical section. */
  ghost predicate Locks(s: Sys)
  {
    && (forall t {:trigger HoldsItsLocks(s, t)} | 0 <= t < |s.threads| :: HoldsItsLocks(s, t))
    && (forall k {:trigger HeldByInsider(s, k)} | k in s.cls :: HeldByInsider(s, k))
  }

  ghost predicate HoldsItsLocks(s: Sys, t: nat)
    requires t < |s.threads|
  {
    var pc := s.threads[t].pc;
    && (ScHeld(pc).Some? ==> pc.key in s.cls && s.cls[pc.key].scLock == Some(t))
    && (BinHeld(pc).Some? ==> pc.key in s.cls && s.cls[pc.key].binLock == Some(t))
  }

  ghost predicate HeldByInsider(s: Sys, k: Key)
    requires k in s.cls
  {
    var ks := s.cls[k];
    && (ks.scLock.Some? ==> ks.scLock.value < |s.threads| && ScHeld(s.threads[ks.scLock.value].pc) == Some(k))
    && (ks.binLock.Some? ==> ks.binLock.value < |s.threads| && BinHeld(s.threads[ks.binLock.value].pc) == Some(k))
  }

  /** The blocks at a place. */
  ghost function Holds(s: Sys, p: Place): set<Addr>
  {
    match p
    case Live => s.live
    case OnFreeList(k) => if k in s.cls then FreeSet(s.cls[k].sc) else {}
    case InCache(t, c) => CacheBlocks(CacheOf(s, t), c)
    case InForeignBin(k) => if k in s.cls then Elems(s.cls[k].bin.list) else {}
    case InHand(t) => Elems(HandOf(PcOf(s, t)))
  }

  ghost function CacheBlocks(cache: Cache, c: nat): set<Addr>
  {
    if cache.Cache? && c < |cache.bins| then Elems(cache.bins[c].list) else {}
  }

  /** Every block is at exactly the place its history says. */
  ghost predicate Places(s: Sys)
  {
    forall p, b {:trigger b in Holds(s, p)} :: b in Holds(s, p) <==> b in s.place && s.place[b] == p
  }

  /** Every block of every mapped slab is somewhere. */
  ghost predicate Coverage(g: Config, s: Sys)
  {
    forall k, p, b {:trigger InSystem(s, k, p), b in s.place}
      | InSystem(s, k, p) && IsBlock(p, SizeOf(g, k), b) :: b in s.place
  }

  /** The block was carved from a mapped slab of class k and its raw_ptr says which. */
  ghost predicate Carved(g: Config, s: Sys, b: Addr, k: Key)
  {
    b in s.hdr && InSystem(s, k, s.hdr[b].slab) && IsBlock(s.hdr[b].slab, SizeOf(g, k), b)
  }

  /** And its node and size_class name class k. */
  ghost predicate Stamped(g: Config, s: Sys, b: Addr, k: Key)
  {
    Carved(g, s, b, k) && s.hdr[b].node == k.node && s.hdr[b].size == SizeOf(g, k)
  }

  function KeyOf(g: Config, h: Header): Key
    requires T.Wf(g.table)
  {
    match T.ClassIndex(g.table, h.size)
    case OutOfRange => Key(h.node, 0)
    case Index(c) => Key(h.node, c)
  }

  ghost predicate HomeOk(g: Config, s: Sys, b: Addr, p: Place)
    requires T.Wf(g.table)
  {
    match p
    case OnFreeList(k) => true
    case Live => Stamped(g, s, b, KeyOf(g, HdrOf(s, b)))
    case InCache(t, c) => CacheOf(s, t).Cache? && Stamped(g, s, b, Key(CacheOf(s, t).node, c))
    case InForeignBin(k) => Stamped(g, s, b, k)
    case InHand(t) => HandHome(g, s, b, PcOf(s, t))
  }

  ghost predicate HandHome(g: Config, s: Sys, b: Addr, pc: Pc)
  {
    match pc
    case Stamp(k, _) => Carved(g, s, b, k)
    case WantSc(k, _) => Stamped(g, s, b, k)
    case InSc(k, _) => Stamped(g, s, b, k)
    case WantBin(k, _) => Stamped(g, s, b, k)
    case InBin(k, _) => Stamped(g, s, b, k)
    case Subtract(k, _, _, _) => Stamped(g, s, b, k)
    case _ => false
  }

  /** Header fields of every block that is not on a free list are intact wherever it is. */
  ghost predicate Homes(g: Config, s: Sys)
    requires T.Wf(g.table)
  {
    forall b {:trigger HomeOk(g, s, b, s.place[b])} | b in s.place :: HomeOk(g, s, b, s.place[b])
  }

  /** Whether the bin's lock holder is between linking a block and the overflow check. */
  function Pending(s: Sys, k: Key): bool
  {
    k in s.cls && s.cls[k].binLock.Some? && PcOf(s, s.cls[k].binLock.value).Pushed?
  }

  function Unsettled(s: Sys, k: Key): bool
  {
    k in s.cls && s.cls[k].binLock.Some? && var pc := PcOf(s, s.cls[k].binLock.value); pc.Pushed? || pc.Added?
  }

  /** Bins are within the high watermark except while their holder has yet to check for overflow. */
  ghost predicate BinsBounded(g: Config, s: Sys)
  {
    forall k {:trigger BinBounded(g, s, k)} | k in s.cls :: BinBounded(g, s, k)
  }

  ghost predicate BinBounded(g: Config, s: Sys, k: Key)
    requires k in s.cls
  {
    && s.cls[k].bin.bytes <= High(g, k) + (if Unsettled(s, k) then SizeOf(g, k) else 0)
    && (Unsettled(s, k) ==> s.cls[k].bin.list != [])
  }

  /** The bytes of a bin that foreign_bytes_ already counts. */
  function Counted(g: Config, s: Sys, k: Key): int
  {
    if k in s.cls then s.cls[k].bin.bytes - (if Pending(s, k) then SizeOf(g, k) else 0) else 0
  }

  function Unsubtracted(pc: Pc, n: nat): int
  {
    if pc.Subtract? && pc.key.node == n then pc.bytes else 0
  }

  function CountedSeq(g: Config, s: Sys, n: nat): seq<int>
  {
    seq(|g.sizes|, c requires 0 <= c < |g.sizes| => Counted(g, s, Key(n, c)))
  }

  function UnsubtractedSeq(s: Sys, n: nat): seq<int>
  {
    seq(|s.threads|, t requires 0 <= t < |s.threads| => Unsubtracted(s.threads[t].pc, n))
  }

  /** foreign_bytes_ is what the node's bins hold and have counted, plus what was detached and is not yet
      subtracted. */
  ghost predicate ForeignExact(g: Config, s: Sys)
  {
    forall n | 0 <= n < |s.foreign| ::
      s.foreign[n] == Sum(CountedSeq(g, s, n)) + Sum(UnsubtractedSeq(s, n))
  }

  /** The states that satisfy the invariant. */
  ghost function Good(g: Config): iset<Sys>
  {
    iset s | Inv(g, s)
  }

  ghost predicate Inv(g: Config, s: Sys)
  {
    && WfConfig(g)
    && Shape(g, s) && SlabsApart(s) && Locks(s)
    && Places(s) && Coverage(g, s) && Homes(g, s)
    && BinsBounded(g, s) && ForeignExact(g, s)
  }

  // ---- facts about the configuration ----

  lemma SizesRoute(g: Config, k: Key)
    requires WfConfig(g) && k.cls < |g.sizes|
    ensures SizeOf(g, k) > 0 && T.ClassIndex(g.table, SizeOf(g, k)) == T.Index(k.cls)
    ensures SizeOf(g, k) <= Low(g, k) < High(g, k) && Low(g, k) + SizeOf(g, k) <= High(g, k)
  {
    T.RoundingIsIdempotent(g.table, k.cls);
    T.WatermarksFitClass(g.table, SizeOf(g, k));
  }

  function RouteTo(g: Config, arena: nat, k: Key, b: Addr, cont: Cont): Pc
  {
    if k.node != arena && g.nodes > 1 then WantBin(k, Enqueue(b, cont)) else WantSc(k, FreeOne(b, cont))
  }

  /** A stamped block's header routes it to its own class. */
  lemma StampedRoutes(g: Config, s: Sys, b: Addr, k: Key)
    requires WfConfig(g) && IsKey(g, k) && Stamped(g, s, b, k)
    ensures KeyOf(g, s.hdr[b]) == k
    ensures forall arena, cont :: Route(g, arena, s.hdr[b], b, cont) == RouteTo(g, arena, k, b, cont)
  {
    SizesRoute(g, k);
  }

  // ---- carrying the parts across a step ----

  /** The step touches thread t and class k only. */
  ghost predicate Local(s: Sys, s': Sys, t: nat, k: Key)
  {
    && t < |s.threads| && |s'.threads| == |s.threads|
    && (forall u | 0 <= u < |s.threads| && u != t :: s'.threads[u] == s.threads[u])
    && s'.cls.Keys == s.cls.Keys
    && (forall j | j in s.cls && j != k :: s'.cls[j] == s.cls[j])
    && |s'.foreign| == |s.foreign|
  }

  lemma ShapeStep(g: Config, s: Sys, s': Sys, t: nat, k: Key)
    requires s in Good(g) && Local(s, s', t, k)
    requires s'.threads[t] in GoodThreads(g)
    requires k in s.cls ==> s'.cls[k] in GoodClasses(g, k)
    ensures Shape(g, s')
  {
    forall j | j in s'.cls ensures s'.cls[j] in GoodClasses(g, j) {
      if j != k { assert s'.cls[j] == s.cls[j]; }
    }
  }

  /** Slabs are unchanged, so nothing about regions moves. */
  lemma ApartStep(g: Config, s: Sys, s': Sys, t: nat, k: Key)
    requires s in Good(g) && Local(s, s', t, k)
    requires forall p | InSystem(s', k, p) :: InSystem(s, k, p)
    ensures SlabsApart(s')
  {
    forall j, p | InSystem(s', j, p) ensures InSystem(s, j, p) {
      if j != k { assert s'.cls[j] == s.cls[j]; }
    }
  }

  /** t moves in or out of at most the locks of class k. */
  lemma LocksStep(g: Config, s: Sys, s': Sys, t: nat, k: Key)
    requires s in Good(g) && Local(s, s', t, k)
    requires HoldsItsLocks(s', t)
    requires k in s.cls ==> HeldByInsider(s', k)
    requires k in s.cls ==> forall u | 0 <= u < |s.threads| && u != t ::
               (s.cls[k].scLock == Some(u) ==> s'.cls[k].scLock == Some(u)) &&
               (s.cls[k].binLock == Some(u) ==> s'.cls[k].binLock == Some(u))
    requires forall j | j != k :: ScHeld(s'.threads[t].pc) == Some(j) <==> ScHeld(s.threads[t].pc) == Some(j)
    requires forall j | j != k :: BinHeld(s'.threads[t].pc) == Some(j) <==> BinHeld(s.threads[t].pc) == Some(j)
    ensures Locks(s')
  {
    forall u | 0 <= u < |s'.threads| ensures HoldsItsLocks(s', u) {
      if u != t { assert HoldsItsLocks(s, u); }
    }
    forall j | j in s'.cls ensures HeldByInsider(s', j) {
      if j != k { assert HeldByInsider(s, j); }
    }
  }

  /** Blocks `moved` go to place `to`; every other block stays. */
  lemma PlacesStep(g: Config, s: Sys, s': Sys, moved: set<Addr>, to: Place)
    requires s in Good(g)
    requires s'.place == MoveTo(s.place, moved, to)
    requires forall p | p != to :: Holds(s', p) == Holds(s, p) - moved
    requires Holds(s', to) == Holds(s, to) + moved
    ensures Places(s')
  {
    forall p, b ensures b in Holds(s', p) <==> b in s'.place && s'.place[b] == p {
      assert b in Holds(s, p) <==> b in s.place && s.place[b] == p;
    }
  }

  lemma PlacesSame(g: Config, s: Sys, s': Sys)
    requires s in Good(g) && s'.place == s.place
    requires forall p :: Holds(s', p) == Holds(s, p)
    ensures Places(s')
  {
    forall p, b ensures b in Holds(s', p) <==> b in s'.place && s'.place[b] == p {
      assert b in Holds(s, p) <==> b in s.place && s.place[b] == p;
    }
  }

  lemma CoverageSame(g: Config, s: Sys, s': Sys)
    requires s in Good(g) && s'.place.Keys >= s.place.Keys
    requires forall k, p | InSystem(s', k, p) :: InSystem(s, k, p)
    ensures Coverage(g, s')
  {
    forall k, p, b | InSystem(s', k, p) && IsBlock(p, SizeOf(g, k), b) ensures b in s'.place {
      assert InSystem(s, k, p);
      assert b in s.place;
    }
  }

  /** Homes survive where nothing about the block changed; the blocks that moved are checked by the caller. */
  lemma HomesStep(g: Config, s: Sys, s': Sys, t: nat, moved: set<Addr>)
    requires s in Good(g)
    requires forall u | u != t :: PcOf(s', u) == PcOf(s, u) && CacheOf(s', u) == CacheOf(s, u)
    requires forall b | b in s'.place && b !in moved && !s'.place[b].OnFreeList? :: b in Undisturbed(s, s', t)
    requires T.Wf(g.table) && forall b | b in s'.place && b in moved :: HomeOk(g, s', b, s'.place[b])
    ensures T.Wf(g.table) && Homes(g, s')
  {
    forall b | b in s'.place ensures HomeOk(g, s', b, s'.place[b]) {
      if b !in moved && !s'.place[b].OnFreeList? {
        assert b in Undisturbed(s, s', t);
        assert HomeOk(g, s, b, s.place[b]);
      }
    }
  }

  /** Blocks that stay where they were, with their header, slab and owner's view of them. */
  ghost function Undisturbed(s: Sys, s': Sys, t: nat): iset<Addr>
  {
    iset b | b in s'.place && b in s.place && s'.place[b] == s.place[b] && LeftAlone(s, s', t, b)
  }

  ghost predicate LeftAlone(s: Sys, s': Sys, t: nat, b: Addr)
    requires b in s.place
  {
    && (b in s.hdr ==> b in s'.hdr && s'.hdr[b] == s.hdr[b])
    && (b in s.hdr ==> forall k :: InSystem(s, k, s.hdr[b].slab) ==> InSystem(s', k, s.hdr[b].slab))
    && match s.place[b]
       case InCache(u, _) => u == t ==> CacheOf(s', t).Cache? && CacheOf(s, t).Cache? && CacheOf(s', t).node == CacheOf(s, t).node
       case InHand(u) => u == t ==> SameErrand(PcOf(s, t), PcOf(s', t))
       case _ => true
  }

  /** Both pcs carry blocks for the same class, fully stamped. */
  predicate SameErrand(pc: Pc, pc': Pc)
  {
    && (pc.WantSc? || pc.InSc? || pc.WantBin? || pc.InBin? || pc.Subtract?)
    && (pc'.WantSc? || pc'.InSc? || pc'.WantBin? || pc'.InBin? || pc'.Subtract?)
    && pc.key == pc'.key
  }

  lemma BoundedStep(g: Config, s: Sys, s': Sys, t: nat, k: Key)
    requires s in Good(g) && Local(s, s', t, k)
    requires k in s.cls ==> BinBounded(g, s', k)
    requires forall j | j != k :: BinHeld(s.threads[t].pc) != Some(j)
    ensures BinsBounded(g, s')
  {
    forall j | j in s'.cls ensures BinBounded(g, s', j) {
      if j != k {
        assert BinBounded(g, s, j) && HeldByInsider(s, j);
      }
    }
  }

  /** What the step adds to the node's counter is what it changed in class k and in t's pending subtraction. */
  lemma ForeignStep(g: Config, s: Sys, s': Sys, t: nat, k: Key)
    requires s in Good(g) && Local(s, s', t, k) && (k in s.cls ==> IsKey(g, k))
    requires forall j | j != k :: BinHeld(s.threads[t].pc) != Some(j)
    requires forall n | 0 <= n < |s.foreign| ::
      s'.foreign[n] == s.foreign[n]
        + (if n == k.node then Counted(g, s', k) - Counted(g, s, k) else 0)
        + Unsubtracted(s'.threads[t].pc, n) - Unsubtracted(s.threads[t].pc, n)
    ensures ForeignExact(g, s')
  {
    forall n | 0 <= n < |s'.foreign|
      ensures s'.foreign[n] == Sum(CountedSeq(g, s', n)) + Sum(UnsubtractedSeq(s', n))
    {
      SumUpdate(UnsubtractedSeq(s, n), UnsubtractedSeq(s', n), t);
      CountedStep(g, s, s', t, k, n);
    }
  }

  lemma CountedStep(g: Config, s: Sys, s': Sys, t: nat, k: Key, n: nat)
    requires Locks(s) && Local(s, s', t, k) && (k in s.cls ==> IsKey(g, k))
    requires forall j | j != k :: BinHeld(s.threads[t].pc) != Some(j)
    ensures Sum(CountedSeq(g, s', n)) ==
            Sum(CountedSeq(g, s, n)) + (if n == k.node then Counted(g, s', k) - Counted(g, s, k) else 0)
  {
    forall j | j != k ensures Counted(g, s', j) == Counted(g, s, j) {
      if j in s.cls { assert HeldByInsider(s, j); }
    }
    if n == k.node && k.cls < |g.sizes| {
      SumUpdate(CountedSeq(g, s, n), CountedSeq(g, s', n), k.cls);
    } else {
      assert CountedSeq(g, s', n) == CountedSeq(g, s, n);
    }
  }

  /** A thread never owes more than the counter holds. */
  lemma CounterCoversDebt(g: Config, s: Sys, t: nat)
    requires s in Good(g) && t < |s.threads| && s.threads[t].pc.Subtract?
    requires s.threads[t].pc.key.node < |s.foreign|
    ensures s.threads[t].pc.bytes <= s.foreign[s.threads[t].pc.key.node]
  {
    assert s.threads[t] in GoodThreads(g);
    var n := s.threads[t].pc.key.node;
    CountedNonNegative(g, s, n);
    SumNonNegative(CountedSeq(g, s, n));
    UnsubtractedNonNegative(g, s, n);
    SumBounds(UnsubtractedSeq(s, n), t);
    assert UnsubtractedSeq(s, n)[t] == s.threads[t].pc.bytes;
  }

  lemma CountedNonNegative(g: Config, s: Sys, n: nat)
    requires s in Good(g) && n < g.nodes
    ensures forall c | 0 <= c < |g.sizes| :: CountedSeq(g, s, n)[c] >= 0
  {
    forall c | 0 <= c < |g.sizes| ensures CountedSeq(g, s, n)[c] >= 0 {
      var k := Key(n, c);
      assert IsKey(g, k) && s.cls[k] in GoodClasses(g, k) && BinBounded(g, s, k);
      if s.cls[k].bin.list != [] { MulMono(1, |s.cls[k].bin.list|, SizeOf(g, k)); }
    }
  }

  lemma UnsubtractedNonNegative(g: Config, s: Sys, n: nat)
    requires Shape(g, s)
    ensures forall t | 0 <= t < |s.threads| :: UnsubtractedSeq(s, n)[t] >= 0
  {
    forall t | 0 <= t < |s.threads| ensures UnsubtractedSeq(s, n)[t] >= 0 {
      assert s.threads[t] in GoodThreads(g);
    }
  }
}
