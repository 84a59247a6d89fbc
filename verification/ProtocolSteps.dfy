/** Every step of the system preserves the invariant. */
module ProtocolSteps {
  import opened Arithmetic
  import opened Lists
  import opened Layout
  import opened SizeClassSpec
  import opened ForeignSpec
  import opened Protocol
  import opened ProtocolInvariant
  import T = SizeClassTable

  // ---- shared by many steps ----

  /** Steps that move no block: lists, headers and places are as before, wherever the pc and the locks go. */
  ghost predicate Still(s: Sys, s': Sys, t: nat, k: Key)
  {
    && Local(s, s', t, k)
    && s'.hdr == s.hdr && s'.live == s.live && s'.place == s.place
    && (k in s.cls ==> s'.cls[k] == Relocked(s.cls[k], s'.cls[k]))
    && HandOf(s'.threads[t].pc) == HandOf(s.threads[t].pc)
    && (HandOf(s.threads[t].pc) == [] || SameErrand(s.threads[t].pc, s'.threads[t].pc))
    && (s'.threads[t].cache == s.threads[t].cache || SameBlocks(s.threads[t].cache, s'.threads[t].cache))
  }

  function Relocked(ks: KeyState, ks': KeyState): KeyState
  {
    ks.(scLock := ks'.scLock, binLock := ks'.binLock)
  }

  ghost predicate SameBlocks(c: Cache, c': Cache)
  {
    && (forall i: nat :: CacheBlocks(c', i) == CacheBlocks(c, i))
    && (SameNode(c, c') || EmptyCache(c'))
  }

  lemma StillPlaces(g: Config, s: Sys, s': Sys, t: nat, k: Key)
    requires s in Good(g) && Still(s, s', t, k)
    ensures Places(s')
  {
    forall p ensures Holds(s', p) == Holds(s, p) {
      match p
      case InHand(u) => if u < |s.threads| && u != t { assert s'.threads[u] == s.threads[u]; }
      case InCache(u, _) => if u < |s.threads| && u != t { assert s'.threads[u] == s.threads[u]; }
      case OnFreeList(j) => if j in s.cls && j != k { assert s'.cls[j] == s.cls[j]; }
      case InForeignBin(j) => if j in s.cls && j != k { assert s'.cls[j] == s.cls[j]; }
      case Live =>
    }
    PlacesSame(g, s, s');
  }

  lemma StillSlabs(s: Sys, s': Sys, t: nat, k: Key)
    requires Still(s, s', t, k)
    ensures forall j, p :: InSystem(s', j, p) <==> InSystem(s, j, p)
  {
    forall j, p ensures InSystem(s', j, p) <==> InSystem(s, j, p) {
      if j in s.cls && j != k { assert s'.cls[j] == s.cls[j]; }
    }
  }

  lemma StillHomes(g: Config, s: Sys, s': Sys, t: nat, k: Key)
    requires s in Good(g) && Still(s, s', t, k)
    ensures T.Wf(g.table) && Homes(g, s')
  {
    OthersSame(s, s', t, k);
    forall b | b in s'.place && !s'.place[b].OnFreeList? ensures b in Undisturbed(s, s', t) {
      StillBlock(g, s, s', t, k, b);
    }
    HomesStep(g, s, s', t, {});
  }

  lemma OthersSame(s: Sys, s': Sys, t: nat, k: Key)
    requires Local(s, s', t, k)
    ensures forall u | u != t :: PcOf(s', u) == PcOf(s, u) && CacheOf(s', u) == CacheOf(s, u)
  {
    forall u: nat | u != t ensures PcOf(s', u) == PcOf(s, u) && CacheOf(s', u) == CacheOf(s, u) {
      if u < |s.threads| { assert s'.threads[u] == s.threads[u]; }
    }
  }

  lemma StillBlock(g: Config, s: Sys, s': Sys, t: nat, k: Key, b: Addr)
    requires s in Good(g) && Still(s, s', t, k) && b in s.place && !s.place[b].OnFreeList?
    ensures b in Undisturbed(s, s', t)
  {
    StillSlabs(s, s', t, k);
    match s.place[b]
    case InHand(u) =>
      assert b in Holds(s, s.place[b]);
    case InCache(u, c) =>
      assert b in Holds(s, s.place[b]);
    case _ =>
  }

  /** Thread t goes to `pc`, taking or dropping the locks of class k that its old and new pc call for, and
      adds `d` to the counter of k's node. */
  function Moved(s: Sys, t: nat, k: Key, pc: Pc, d: int): Sys
    requires t < |s.threads| && k in s.cls && k.node < |s.foreign|
  {
    var from := s.threads[t].pc;
    SetKey(SetPc(s, t, pc), k,
           s.cls[k].(scLock := NewLock(ScHeld(from), ScHeld(pc), k, t, s.cls[k].scLock),
                     binLock := NewLock(BinHeld(from), BinHeld(pc), k, t, s.cls[k].binLock)))
      .(foreign := s.foreign[k.node := s.foreign[k.node] + d])
  }

  function NewLock(held: Option<Key>, held': Option<Key>, k: Key, t: nat, lock: Option<nat>): Option<nat>
  {
    if held' == Some(k) then Some(t) else if held == Some(k) then None else lock
  }

  predicate Near(held: Option<Key>, k: Key)
  {
    held == None || held == Some(k)
  }

  /** The move respects locks: both pcs concern only class k, and a lock it takes was free. */
  predicate LegalMove(s: Sys, t: nat, k: Key, pc: Pc)
    requires t < |s.threads| && k in s.cls
  {
    var from := s.threads[t].pc;
    && Near(ScHeld(from), k) && Near(ScHeld(pc), k) && Near(BinHeld(from), k) && Near(BinHeld(pc), k)
    && (ScHeld(pc) == Some(k) && ScHeld(from) == None ==> s.cls[k].scLock == None)
    && (BinHeld(pc) == Some(k) && BinHeld(from) == None ==> s.cls[k].binLock == None)
  }

  lemma MovedLocal(g: Config, s: Sys, t: nat, k: Key, pc: Pc, d: int)
    requires s in Good(g) && t < |s.threads| && k in s.cls
    ensures k.node < |s.foreign| && Local(s, Moved(s, t, k, pc, d), t, k)
  {
    assert IsKey(g, k);
  }

  lemma MovedShape(g: Config, s: Sys, s': Sys, t: nat, k: Key, pc: Pc, d: int)
    requires s in Good(g) && t < |s.threads| && k in s.cls && k.node < |s.foreign|
    requires s' == Moved(s, t, k, pc, d) && s'.threads[t] in GoodThreads(g)
    ensures Shape(g, s')
  {
    MovedLocal(g, s, t, k, pc, d);
    assert s.cls[k] in GoodClasses(g, k);
    assert KeyInv(g, k, s.cls[k]);
    assert s'.cls[k] in GoodClasses(g, k);
    ShapeStep(g, s, s', t, k);
  }

  lemma MovedLocks(g: Config, s: Sys, s': Sys, t: nat, k: Key, pc: Pc, d: int)
    requires s in Good(g) && t < |s.threads| && k in s.cls && k.node < |s.foreign|
    requires s' == Moved(s, t, k, pc, d) && LegalMove(s, t, k, pc)
    ensures Locks(s')
  {
    MovedLocal(g, s, t, k, pc, d);
    assert HoldsItsLocks(s, t) && HeldByInsider(s, k);
    LocksStep(g, s, s', t, k);
  }

  /** Only a thread that links or settles a block moves the boundary of a bin. */
  predicate BinMove(g: Config, s: Sys, t: nat, k: Key, pc: Pc)
    requires t < |s.threads| && k in s.cls
  {
    var from := s.threads[t].pc;
    && !pc.Pushed?
    && (from.Pushed? ==> pc.Added?)
    && (pc.Added? ==> from.Pushed? && from.key == k)
    && (from.Added? ==> s.cls[k].bin.bytes <= High(g, k))
  }

  lemma MovedBins(g: Config, s: Sys, s': Sys, t: nat, k: Key, pc: Pc, d: int)
    requires s in Good(g) && t < |s.threads| && k in s.cls && k.node < |s.foreign|
    requires s' == Moved(s, t, k, pc, d) && LegalMove(s, t, k, pc) && BinMove(g, s, t, k, pc)
    ensures BinsBounded(g, s')
    ensures Counted(g, s', k) - Counted(g, s, k) == if s.threads[t].pc.Pushed? then SizeOf(g, k) else 0
  {
    MovedLocal(g, s, t, k, pc, d);
    assert HoldsItsLocks(s, t) && HeldByInsider(s, k) && BinBounded(g, s, k);
    BoundedStep(g, s, s', t, k);
  }

  lemma MovedCounters(g: Config, s: Sys, s': Sys, t: nat, k: Key, pc: Pc, d: int)
    requires s in Good(g) && t < |s.threads| && k in s.cls && k.node < |s.foreign|
    requires s' == Moved(s, t, k, pc, d) && LegalMove(s, t, k, pc) && BinMove(g, s, t, k, pc)
    requires d == (if s.threads[t].pc.Pushed? then SizeOf(g, k) else 0)
                  + Unsubtracted(pc, k.node) - Unsubtracted(s.threads[t].pc, k.node)
    requires forall n | n != k.node :: Unsubtracted(pc, n) == Unsubtracted(s.threads[t].pc, n)
    ensures BinsBounded(g, s') && ForeignExact(g, s')
  {
    MovedLocal(g, s, t, k, pc, d);
    MovedBins(g, s, s', t, k, pc, d);
    ForeignStep(g, s, s', t, k);
  }

  lemma StillKeeps(g: Config, s: Sys, s': Sys, t: nat, k: Key)
    requires s in Good(g) && Still(s, s', t, k)
    ensures SlabsApart(s') && Places(s') && Coverage(g, s') && T.Wf(g.table) && Homes(g, s')
  {
    StillSlabs(s, s', t, k);
    ApartStep(g, s, s', t, k);
    StillPlaces(g, s, s', t, k);
    CoverageSame(g, s, s');
    StillHomes(g, s, s', t, k);
  }

  lemma MovedKeeps(g: Config, s: Sys, s': Sys, t: nat, k: Key, pc: Pc, d: int)
    requires s in Good(g) && t < |s.threads| && k in s.cls && k.node < |s.foreign|
    requires s' == Moved(s, t, k, pc, d) && LegalMove(s, t, k, pc)
    requires s'.threads[t] in GoodThreads(g)
    requires HandOf(pc) == HandOf(s.threads[t].pc) && (HandOf(pc) == [] || SameErrand(s.threads[t].pc, pc))
    requires BinMove(g, s, t, k, pc)
    requires d == (if s.threads[t].pc.Pushed? then SizeOf(g, k) else 0)
                  + Unsubtracted(pc, k.node) - Unsubtracted(s.threads[t].pc, k.node)
    requires forall n | n != k.node :: Unsubtracted(pc, n) == Unsubtracted(s.threads[t].pc, n)
    ensures s' in Good(g)
  {
    MovedLocal(g, s, t, k, pc, d);
    MovedShape(g, s, s', t, k, pc, d);
    MovedLocks(g, s, s', t, k, pc, d);
    MovedCounters(g, s, s', t, k, pc, d);
    StillKeeps(g, s, s', t, k);
  }

  /** A key outside the configuration, for steps that touch no size class. */
  function NoKey(g: Config): Key
  {
    Key(g.nodes, 0)
  }

  /** Steps that only move a thread's pc or swap caches that hold nothing. */
  lemma QuietStep(g: Config, s: Sys, s': Sys, t: nat)
    requires s in Good(g) && t < |s.threads|
    requires |s'.threads| == |s.threads| && s' == s.(threads := s.threads[t := s'.threads[t]])
    requires s'.threads[t] in GoodThreads(g)
    requires HandOf(s.threads[t].pc) == [] && HandOf(s'.threads[t].pc) == []
    requires ScHeld(s.threads[t].pc) == None && ScHeld(s'.threads[t].pc) == None
    requires BinHeld(s.threads[t].pc) == None && BinHeld(s'.threads[t].pc) == None
    requires s'.threads[t].cache == s.threads[t].cache || SameBlocks(s.threads[t].cache, s'.threads[t].cache)
    ensures s' in Good(g)
  {
    assert s.threads[t] in GoodThreads(g);
    StillKeeps(g, s, s', t, NoKey(g));
    OwnRecordOnly(g, s, s', t);
  }

  /** A thread that holds no lock and owes nothing changes its own record. */
  lemma OwnRecordOnly(g: Config, s: Sys, s': Sys, t: nat)
    requires s in Good(g) && t < |s.threads| && |s'.threads| == |s.threads|
    requires s'.cls == s.cls && s'.foreign == s.foreign && s'.threads == s.threads[t := s'.threads[t]]
    requires s'.threads[t] in GoodThreads(g)
    requires ScHeld(s.threads[t].pc) == None && ScHeld(s'.threads[t].pc) == None
    requires BinHeld(s.threads[t].pc) == None && BinHeld(s'.threads[t].pc) == None
    requires !s.threads[t].pc.Subtract? && !s'.threads[t].pc.Subtract?
    ensures Shape(g, s') && SlabsApart(s') && Locks(s') && BinsBounded(g, s') && ForeignExact(g, s')
  {
    var k := NoKey(g);
    ShapeStep(g, s, s', t, k);
    ApartStep(g, s, s', t, k);
    LocksStep(g, s, s', t, k);
    BoundedStep(g, s, s', t, k);
    ForeignStep(g, s, s', t, k);
  }

  predicate SameNode(c: Cache, c': Cache)
  {
    c.Cache? && c'.Cache? && c.node == c'.node
  }

  // ---- quiet steps ----

  lemma NewCacheOk(g: Config, node: nat, use: bool)
    requires node < g.nodes
    ensures CacheOk(g, NewCache(g, node, use)) && EmptyCache(NewCache(g, node, use))
    ensures forall c: nat :: CacheBlocks(NewCache(g, node, use), c) == {}
  {
  }

  lemma AttachKeeps(g: Config, s: Sys, t: nat, node: nat, use: bool)
    requires s in Good(g) && Enabled(g, s, Attach(t, node, use))
    ensures Apply(g, s, Attach(t, node, use)) in Good(g)
  {
    NewCacheOk(g, node, use);
    QuietStep(g, s, Apply(g, s, Attach(t, node, use)), t);
  }

  lemma ToggleKeeps(g: Config, s: Sys, t: nat, use: bool)
    requires s in Good(g) && Enabled(g, s, Toggle(t, use))
    ensures Apply(g, s, Toggle(t, use)) in Good(g)
  {
    assert s.threads[t] in GoodThreads(g);
    QuietStep(g, s, Apply(g, s, Toggle(t, use)), t);
  }

  lemma MigrateKeeps(g: Config, s: Sys, t: nat, node: nat, use: bool)
    requires s in Good(g) && Enabled(g, s, Migrate(t, node, use))
    ensures Apply(g, s, Migrate(t, node, use)) in Good(g)
  {
    assert s.threads[t] in GoodThreads(g);
    NewCacheOk(g, node, use);
    QuietStep(g, s, Apply(g, s, Migrate(t, node, use)), t);
  }

  lemma ExitKeeps(g: Config, s: Sys, t: nat)
    requires s in Good(g) && Enabled(g, s, Exit(t))
    ensures Apply(g, s, Exit(t)) in Good(g)
  {
    assert s.threads[t] in GoodThreads(g);
    QuietStep(g, s, Apply(g, s, Exit(t)), t);
  }

  lemma ReadHintKeeps(g: Config, s: Sys, t: nat, zero: bool)
    requires s in Good(g) && Enabled(g, s, ReadHint(t, zero))
    ensures Apply(g, s, ReadHint(t, zero)) in Good(g)
  {
    assert s.threads[t] in GoodThreads(g);
    QuietStep(g, s, Apply(g, s, ReadHint(t, zero)), t);
  }

  // ---- taking and releasing locks ----

  lemma LockScKeeps(g: Config, s: Sys, t: nat)
    requires s in Good(g) && Enabled(g, s, LockSc(t))
    ensures Apply(g, s, LockSc(t)) in Good(g)
  {
    var pc := s.threads[t].pc;
    var pc' := InSc(pc.key, pc.op);
    MovedLocal(g, s, t, pc.key, pc', 0);
    assert Apply(g, s, LockSc(t)) == Moved(s, t, pc.key, pc', 0);
    LockedThread(g, s, t, pc');
    MovedKeeps(g, s, Apply(g, s, LockSc(t)), t, pc.key, pc', 0);
  }

  lemma LockBinKeeps(g: Config, s: Sys, t: nat)
    requires s in Good(g) && Enabled(g, s, LockBin(t))
    ensures Apply(g, s, LockBin(t)) in Good(g)
  {
    var pc := s.threads[t].pc;
    LockedThread(g, s, t, InBin(pc.key, pc.bop));
    TakeBin(g, s, t, pc.key, pc.bop);
  }

  lemma TakeBin(g: Config, s: Sys, t: nat, k: Key, op: BinOp)
    requires s in Good(g) && t < |s.threads| && s.threads[t].pc == WantBin(k, op)
    requires k in s.cls && s.cls[k].binLock == None
    requires s.threads[t].(pc := InBin(k, op)) in GoodThreads(g)
    ensures SetKey(SetPc(s, t, InBin(k, op)), k, s.cls[k].(binLock := Some(t))) in Good(g)
  {
    var pc := InBin(k, op);
    MovedLocal(g, s, t, k, pc, 0);
    assert SetKey(SetPc(s, t, pc), k, s.cls[k].(binLock := Some(t))) == Moved(s, t, k, pc, 0);
    MovedKeeps(g, s, Moved(s, t, k, pc, 0), t, k, pc, 0);
  }

  lemma LockedThread(g: Config, s: Sys, t: nat, pc: Pc)
    requires s in Good(g) && t < |s.threads|
    requires var from := s.threads[t].pc;
      (from.WantSc? && pc == InSc(from.key, from.op)) || (from.WantBin? && pc == InBin(from.key, from.bop))
    ensures s.threads[t].(pc := pc) in GoodThreads(g)
  {
    assert s.threads[t] in GoodThreads(g);
    assert ThreadInv(g, s.threads[t]);
  }

  // ---- thread cache ----

  lemma PopBin(g: Config, k: Key, bin: CacheBin)
    requires CacheBinOk(g, k, bin) && bin.list != []
    ensures CacheBinOk(g, k, CacheBin(bin.list[1..], bin.bytes - SizeOf(g, k)))
    ensures Elems(bin.list[1..]) == Elems(bin.list) - {bin.list[0]}
  {
    NoDupTail(bin.list);
    assert (|bin.list| - 1) * SizeOf(g, k) == bin.bytes - SizeOf(g, k);
  }

  lemma PushBin(g: Config, k: Key, bin: CacheBin, b: Addr)
    requires CacheBinOk(g, k, bin) && b !in bin.list && bin.bytes + SizeOf(g, k) <= High(g, k)
    ensures CacheBinOk(g, k, CacheBin([b] + bin.list, bin.bytes + SizeOf(g, k)))
    ensures Elems([b] + bin.list) == Elems(bin.list) + {b}
  {
    NoDupPush(b, bin.list);
    assert (|bin.list| + 1) * SizeOf(g, k) == bin.bytes + SizeOf(g, k);
  }

  lemma ReplaceBin(g: Config, cache: Cache, c: nat, bin: CacheBin)
    requires cache.Cache? && CacheOk(g, cache) && c < |cache.bins| && CacheBinOk(g, Key(cache.node, c), bin)
    ensures CacheOk(g, cache.(bins := cache.bins[c := bin]))
    ensures forall i: nat :: CacheBlocks(cache.(bins := cache.bins[c := bin]), i)
                          == if i == c then Elems(bin.list) else CacheBlocks(cache, i)
  {
    var cache' := cache.(bins := cache.bins[c := bin]);
    forall i | 0 <= i < |cache'.bins| ensures CacheBinOk(g, Key(cache'.node, i), cache'.bins[i]) {
      if i != c { assert CacheBinOk(g, Key(cache.node, i), cache.bins[i]); }
    }
    forall i: nat ensures CacheBlocks(cache', i) == if i == c then Elems(bin.list) else CacheBlocks(cache, i) {
      if i < |cache.bins| { assert cache'.bins[i] == if i == c then bin else cache.bins[i]; }
    }
  }

  /** Taking the head off a cache bin leaves a good cache, and that block elsewhere. */
  lemma PopFromCache(g: Config, s: Sys, t: nat, cache: Cache, c: nat, b: Addr, cache': Cache)
    requires s in Good(g) && t < |s.threads| && s.threads[t].cache == cache && cache.Cache?
    requires c < |cache.bins| && cache.bins[c].list != [] && b == cache.bins[c].list[0]
    requires cache' == cache.(bins := cache.bins[c := CacheBin(cache.bins[c].list[1..], cache.bins[c].bytes - HdrOf(s, b).size)])
    ensures CacheOk(g, cache')
    ensures forall i: nat :: CacheBlocks(cache', i) == if i == c then CacheBlocks(cache, i) - {b} else CacheBlocks(cache, i)
  {
    var k := Key(cache.node, c);
    CacheFacts(g, s, t, cache);
    CachedBlock(g, s, t, cache, c, b, k);
    PopBin(g, k, cache.bins[c]);
    ReplaceBin(g, cache, c, cache'.bins[c]);
  }

  lemma CachedBlock(g: Config, s: Sys, t: nat, cache: Cache, c: nat, b: Addr, k: Key)
    requires s in Good(g) && t < |s.threads| && s.threads[t].cache == cache && cache.Cache?
    requires c < |cache.bins| && b in cache.bins[c].list && k == Key(cache.node, c)
    ensures b in s.place && s.place[b] == InCache(t, c) && Stamped(g, s, b, k)
  {
    assert b in Holds(s, InCache(t, c));
    assert HomeOk(g, s, b, s.place[b]);
  }

  lemma CacheFacts(g: Config, s: Sys, t: nat, cache: Cache)
    requires s in Good(g) && t < |s.threads| && s.threads[t].cache == cache && cache.Cache?
    ensures CacheOk(g, cache) && PcOk(g, s.threads[t].pc, cache)
  {
    assert s.threads[t] in GoodThreads(g);
  }

  /** A step in which only thread t's own record, the live set and one block's place change. */
  ghost predicate OneBlock(s: Sys, s': Sys, t: nat, b: Addr, to: Place)
    requires t < |s.threads| && |s'.threads| == |s.threads|
  {
    && s' == s.(threads := s.threads[t := s'.threads[t]], live := s'.live, place := MoveTo(s.place, {b}, to))
    && b in s.place && s.place[b] != to && s.place[b] != InHand(t)
    && Private(s.place[b], t) && Private(to, t)
    && (forall c: nat :: CacheBlocks(s'.threads[t].cache, c) == Shifted(s, CacheBlocks(s.threads[t].cache, c), InCache(t, c), b, to))
    && s'.live == Shifted(s, s.live, Live, b, to)
    && HandOf(s.threads[t].pc) == []
    && Elems(HandOf(s'.threads[t].pc)) == (if to == InHand(t) then {b} else {})
  }

  /** Places that only thread t, or the user, moves blocks to and from. */
  predicate Private(p: Place, t: nat)
  {
    p.Live? || (p.InCache? && p.thread == t) || p == InHand(t)
  }

  /** The blocks at p after b left for `to`. */
  function Shifted(s: Sys, blocks: set<Addr>, p: Place, b: Addr, to: Place): set<Addr>
    requires b in s.place
  {
    if p == to then blocks + {b} else if p == s.place[b] then blocks - {b} else blocks
  }

  lemma OneBlockPlaces(g: Config, s: Sys, s': Sys, t: nat, b: Addr, to: Place)
    requires s in Good(g) && t < |s.threads| && |s'.threads| == |s.threads| && OneBlock(s, s', t, b, to)
    ensures Places(s')
  {
    forall p ensures Holds(s', p) == Shifted(s, Holds(s, p), p, b, to) {
      OneBlockHolds(s, s', t, b, to, p);
    }
    ShiftedPlaces(g, s, s', b, to);
  }

  lemma OneBlockHolds(s: Sys, s': Sys, t: nat, b: Addr, to: Place, p: Place)
    requires t < |s.threads| && |s'.threads| == |s.threads| && OneBlock(s, s', t, b, to)
    requires s.place[b] != InHand(t)
    ensures Holds(s', p) == Shifted(s, Holds(s, p), p, b, to)
  {
    match p
    case InHand(u) => if u < |s.threads| && u != t { assert s'.threads[u] == s.threads[u]; }
    case InCache(u, c) => if u < |s.threads| && u != t { assert s'.threads[u] == s.threads[u]; }
    case _ =>
  }

  lemma ShiftedPlaces(g: Config, s: Sys, s': Sys, b: Addr, to: Place)
    requires s in Good(g) && b in s.place && s.place[b] != to && s'.place == MoveTo(s.place, {b}, to)
    requires forall p :: Holds(s', p) == Shifted(s, Holds(s, p), p, b, to)
    ensures Places(s')
  {
    forall p | p != to ensures Holds(s', p) == Holds(s, p) - {b} {
      if p != s.place[b] { assert b !in Holds(s, p); }
    }
    PlacesStep(g, s, s', {b}, to);
  }

  lemma OneBlockHomes(g: Config, s: Sys, s': Sys, t: nat, b: Addr, to: Place)
    requires s in Good(g) && t < |s.threads| && |s'.threads| == |s.threads| && OneBlock(s, s', t, b, to)
    requires SameNode(s.threads[t].cache, s'.threads[t].cache)
    requires T.Wf(g.table) && HomeOk(g, s', b, to)
    ensures Homes(g, s')
  {
    assert forall u | u != t :: PcOf(s', u) == PcOf(s, u) && CacheOf(s', u) == CacheOf(s, u);
    forall x | x in s'.place && x != b && !s'.place[x].OnFreeList? ensures x in Undisturbed(s, s', t) {
      OtherBlock(g, s, s', t, b, to, x);
    }
    HomesStep(g, s, s', t, {b});
  }

  lemma OtherBlock(g: Config, s: Sys, s': Sys, t: nat, b: Addr, to: Place, x: Addr)
    requires s in Good(g) && t < |s.threads| && |s'.threads| == |s.threads| && OneBlock(s, s', t, b, to)
    requires SameNode(s.threads[t].cache, s'.threads[t].cache)
    requires x in s.place && x != b
    ensures x in Undisturbed(s, s', t)
  {
    assert x in Holds(s, s.place[x]);
    assert s'.cls == s.cls;
  }

  lemma BlockMoves(g: Config, s: Sys, s': Sys, t: nat, b: Addr, to: Place)
    requires s in Good(g) && t < |s.threads| && |s'.threads| == |s.threads| && OneBlock(s, s', t, b, to)
    requires s'.threads[t] in GoodThreads(g)
    requires ScHeld(s.threads[t].pc) == None && ScHeld(s'.threads[t].pc) == None
    requires BinHeld(s.threads[t].pc) == None && BinHeld(s'.threads[t].pc) == None
    requires !s.threads[t].pc.Subtract? && !s'.threads[t].pc.Subtract?
    requires SameNode(s.threads[t].cache, s'.threads[t].cache)
    requires T.Wf(g.table) && HomeOk(g, s', b, to)
    ensures s' in Good(g)
  {
    OwnRecordOnly(g, s, s', t);
    OneBlockPlaces(g, s, s', t, b, to);
    CoverageSame(g, s, s');
    OneBlockHomes(g, s, s', t, b, to);
  }

  lemma MallocKeeps(g: Config, s: Sys, t: nat, c: nat)
    requires s in Good(g) && Enabled(g, s, Malloc(t, c))
    ensures Apply(g, s, Malloc(t, c)) in Good(g)
  {
    var s' := Apply(g, s, Malloc(t, c));
    var cache := s.threads[t].cache;
    CacheFacts(g, s, t, cache);
    if cache.use && cache.bins[c].list != [] {
      var b := cache.bins[c].list[0];
      PopFromCache(g, s, t, cache, c, b, s'.threads[t].cache);
      CachedBlock(g, s, t, cache, c, b, Key(cache.node, c));
      StampedRoutes(g, s, b, Key(cache.node, c));
      BlockMoves(g, s, s', t, b, Live);
    } else {
      QuietStep(g, s, s', t);
    }
  }

  lemma FlushPop(g: Config, s: Sys, t: nat, c: nat, b: Addr, cache: Cache, cache': Cache, next: Cache)
    requires s in Good(g) && t < |s.threads| && s.threads[t] == Thread(Flush(next), cache) && cache.Cache?
    requires c < |cache.bins| && cache.bins[c].list != [] && b == cache.bins[c].list[0]
    requires cache' == cache.(bins := cache.bins[c := CacheBin(cache.bins[c].list[1..], cache.bins[c].bytes - HdrOf(s, b).size)])
    ensures s.(threads := s.threads[t := Thread(RouteTo(g, cache.node, Key(cache.node, c), b, Flushing(next)), cache')],
               place := MoveTo(s.place, {b}, InHand(t))) in Good(g)
  {
    var k := Key(cache.node, c);
    CacheFacts(g, s, t, cache);
    PopFromCache(g, s, t, cache, c, b, cache');
    CachedBlock(g, s, t, cache, c, b, k);
    RoutedThread(g, cache.node, k, b, Flushing(next), cache');
    BlockMoves(g, s, s.(threads := s.threads[t := Thread(RouteTo(g, cache.node, k, b, Flushing(next)), cache')],
                        place := MoveTo(s.place, {b}, InHand(t))), t, b, InHand(t));
  }

  lemma FlushNextKeeps(g: Config, s: Sys, t: nat)
    requires s in Good(g) && Enabled(g, s, FlushNext(t))
    ensures Apply(g, s, FlushNext(t)) in Good(g)
  {
    var cache := s.threads[t].cache;
    var next := s.threads[t].pc.next;
    CacheFacts(g, s, t, cache);
    var c := FirstNonEmpty(cache.bins, 0);
    if c == |cache.bins| {
      QuietStep(g, s, Apply(g, s, FlushNext(t)), t);
    } else {
      var b := cache.bins[c].list[0];
      var k := Key(cache.node, c);
      CachedBlock(g, s, t, cache, c, b, k);
      StampedRoutes(g, s, b, k);
      FlushPop(g, s, t, c, b, cache, Apply(g, s, FlushNext(t)).threads[t].cache, next);
    }
  }

  /** A thread sent off to return one block. */
  lemma RoutedThread(g: Config, arena: nat, k: Key, b: Addr, cont: Cont, cache: Cache)
    requires IsKey(g, k) && CacheOk(g, cache) && ContOk(g, cache, cont)
    ensures Thread(RouteTo(g, arena, k, b, cont), cache) in GoodThreads(g)
  {
  }

  lemma LiveBlock(g: Config, s: Sys, b: Addr) returns (k: Key)
    requires s in Good(g) && b in s.live
    ensures b in s.hdr && k == KeyOf(g, s.hdr[b]) && IsKey(g, k) && Stamped(g, s, b, k)
    ensures b in s.place && s.place[b] == Live
  {
    assert b in Holds(s, Live);
    assert HomeOk(g, s, b, s.place[b]);
    k := KeyOf(g, s.hdr[b]);
  }

  /** Caching a freed block: a good cache with that block in front of its bin. */
  lemma PushToCache(g: Config, s: Sys, t: nat, cache: Cache, c: nat, b: Addr, cache': Cache)
    requires s in Good(g) && t < |s.threads| && s.threads[t].cache == cache && cache.Cache?
    requires b in s.live && c < |cache.bins|
    requires cache.bins[c].bytes + SizeOf(g, Key(cache.node, c)) <= High(g, Key(cache.node, c))
    requires cache' == cache.(bins := cache.bins[c := CacheBin([b] + cache.bins[c].list, cache.bins[c].bytes + SizeOf(g, Key(cache.node, c)))])
    ensures CacheOk(g, cache')
    ensures forall i: nat :: CacheBlocks(cache', i) == if i == c then CacheBlocks(cache, i) + {b} else CacheBlocks(cache, i)
  {
    var k := Key(cache.node, c);
    CacheFacts(g, s, t, cache);
    assert b in Holds(s, Live) && b !in Holds(s, InCache(t, c));
    assert b !in cache.bins[c].list;
    PushBin(g, k, cache.bins[c], b);
    ReplaceBin(g, cache, c, cache'.bins[c]);
  }

  /** What a free does, once the block's header is known to be good. */
  lemma FreeResult(g: Config, s: Sys, t: nat, b: Addr, k: Key, cache: Cache)
    requires s in Good(g) && Enabled(g, s, Free(t, b)) && cache == s.threads[t].cache
    requires IsKey(g, k) && Stamped(g, s, b, k)
    ensures k.cls < |cache.bins|
    ensures Apply(g, s, Free(t, b)) ==
            if cache.use && k.node == cache.node && cache.bins[k.cls].bytes + SizeOf(g, k) <= High(g, k) then
              Freed(s, t, b, Thread(Idle, cache.(bins := cache.bins[k.cls :=
                CacheBin([b] + cache.bins[k.cls].list, cache.bins[k.cls].bytes + SizeOf(g, k))])), InCache(t, k.cls))
            else
              Freed(s, t, b, Thread(RouteTo(g, cache.node, k, b, Done), cache), InHand(t))
  {
    CacheFacts(g, s, t, cache);
    StampedRoutes(g, s, b, k);
    SizesRoute(g, k);
  }

  function Freed(s: Sys, t: nat, b: Addr, th: Thread, to: Place): Sys
    requires t < |s.threads|
  {
    s.(threads := s.threads[t := th], live := s.live - {b}, place := MoveTo(s.place, {b}, to))
  }

  lemma FreeToCache(g: Config, s: Sys, t: nat, b: Addr, k: Key, cache: Cache, cache': Cache)
    requires s in Good(g) && t < |s.threads| && s.threads[t] == Thread(Idle, cache) && cache.Cache?
    requires b in s.live && IsKey(g, k) && Stamped(g, s, b, k) && b in s.place && s.place[b] == Live
    requires k.node == cache.node && k.cls < |cache.bins| && cache.bins[k.cls].bytes + SizeOf(g, k) <= High(g, k)
    requires cache' == cache.(bins := cache.bins[k.cls := CacheBin([b] + cache.bins[k.cls].list, cache.bins[k.cls].bytes + SizeOf(g, k))])
    ensures Freed(s, t, b, Thread(Idle, cache'), InCache(t, k.cls)) in Good(g)
  {
    PushToCache(g, s, t, cache, k.cls, b, cache');
    BlockMoves(g, s, Freed(s, t, b, Thread(Idle, cache'), InCache(t, k.cls)), t, b, InCache(t, k.cls));
  }

  lemma FreeToArena(g: Config, s: Sys, t: nat, b: Addr, k: Key, cache: Cache)
    requires s in Good(g) && t < |s.threads| && s.threads[t] == Thread(Idle, cache) && cache.Cache?
    requires b in s.live && IsKey(g, k) && Stamped(g, s, b, k) && b in s.place && s.place[b] == Live
    ensures Freed(s, t, b, Thread(RouteTo(g, cache.node, k, b, Done), cache), InHand(t)) in Good(g)
  {
    CacheFacts(g, s, t, cache);
    RoutedThread(g, cache.node, k, b, Done, cache);
    BlockMoves(g, s, Freed(s, t, b, Thread(RouteTo(g, cache.node, k, b, Done), cache), InHand(t)), t, b, InHand(t));
  }

  lemma FreeKeeps(g: Config, s: Sys, t: nat, b: Addr)
    requires s in Good(g) && Enabled(g, s, Free(t, b))
    ensures Apply(g, s, Free(t, b)) in Good(g)
  {
    var cache := s.threads[t].cache;
    var k := LiveBlock(g, s, b);
    FreeResult(g, s, t, b, k, cache);
    if cache.use && k.node == cache.node && cache.bins[k.cls].bytes + SizeOf(g, k) <= High(g, k) {
      FreeToCache(g, s, t, b, k, cache, cache.(bins := cache.bins[k.cls :=
        CacheBin([b] + cache.bins[k.cls].list, cache.bins[k.cls].bytes + SizeOf(g, k))]));
    } else {
      FreeToArena(g, s, t, b, k, cache);
    }
  }
}
