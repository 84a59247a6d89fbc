/** The steps that move blocks between threads, bins and size classes preserve the invariant. */
module ProtocolTransfers {
  import opened Arithmetic
  import opened Lists
  import opened Layout
  import opened SizeClassSpec
  import opened ForeignSpec
  import opened Protocol
  import opened ProtocolInvariant
  import opened ProtocolSteps
  import T = SizeClassTable

  /** The thread's own invariant, as a fact. */
  lemma ThreadFacts(g: Config, s: Sys, t: nat)
    requires s in Good(g) && t < |s.threads|
    ensures PcOk(g, s.threads[t].pc, s.threads[t].cache) && CacheOk(g, s.threads[t].cache)
    ensures NoDup(HandOf(s.threads[t].pc)) && HoldsItsLocks(s, t)
  {
    assert s.threads[t] in GoodThreads(g);
  }

  lemma KeyFacts(g: Config, s: Sys, k: Key)
    requires s in Good(g) && k in s.cls
    ensures IsKey(g, k) && KeyInv(g, k, s.cls[k]) && HeldByInsider(s, k) && BinBounded(g, s, k)
  {
    assert s.cls[k] in GoodClasses(g, k);
  }

  lemma HandFacts(g: Config, s: Sys, t: nat, b: Addr)
    requires s in Good(g) && t < |s.threads| && b in HandOf(s.threads[t].pc)
    ensures b in s.place && s.place[b] == InHand(t) && HandHome(g, s, b, s.threads[t].pc)
  {
    assert b in Holds(s, InHand(t));
    assert HomeOk(g, s, b, s.place[b]);
  }

  // ---- becoming live ----

  lemma StampKeeps(g: Config, s: Sys, t: nat)
    requires s in Good(g) && Enabled(g, s, StampBlock(t))
    ensures Apply(g, s, StampBlock(t)) in Good(g)
  {
    var s' := Apply(g, s, StampBlock(t));
    var k, b := s.threads[t].pc.key, s.threads[t].pc.block;
    ThreadFacts(g, s, t);
    HandFacts(g, s, t, b);
    OwnRecordOnly(g, s, s', t);
    StampPlaces(g, s, s', t, b);
    CoverageSame(g, s, s');
    StampHomes(g, s, s', t, k, b);
  }

  lemma StampPlaces(g: Config, s: Sys, s': Sys, t: nat, b: Addr)
    requires s in Good(g) && t < |s.threads| && s.threads[t].pc.Stamp? && b == s.threads[t].pc.block
    requires s' == SetPc(s, t, Idle).(hdr := s'.hdr, live := s.live + {b}, place := MoveTo(s.place, {b}, Live))
    ensures Places(s')
  {
    HandFacts(g, s, t, b);
    forall p | p != Live ensures Holds(s', p) == Holds(s, p) - {b} {
      if p != InHand(t) { assert b !in Holds(s, p); }
    }
    PlacesStep(g, s, s', {b}, Live);
  }

  lemma StampHomes(g: Config, s: Sys, s': Sys, t: nat, k: Key, b: Addr)
    requires s in Good(g) && t < |s.threads| && s.threads[t].pc == Stamp(k, b) && IsKey(g, k)
    requires s' == SetPc(s, t, Idle).(hdr := s.hdr[b := Header(k.node, SizeOf(g, k), HdrOf(s, b).slab)],
                                      live := s.live + {b}, place := MoveTo(s.place, {b}, Live))
    ensures T.Wf(g.table) && Homes(g, s')
  {
    HandFacts(g, s, t, b);
    assert InSystem(s', k, s.hdr[b].slab);
    StampedRoutes(g, s', b, k);
    forall x | x in s'.place && x != b && !s'.place[x].OnFreeList? ensures x in Undisturbed(s, s', t) {
      assert x in Holds(s, s.place[x]);
    }
    HomesStep(g, s, s', t, {b});
  }

  // ---- counter updates and empty-handed exits ----

  lemma FetchAddIsMove(g: Config, s: Sys, t: nat, k: Key, cont: Cont)
    requires WfConfig(g) && Enabled(g, s, FetchAdd(t)) && s.threads[t].pc == Pushed(k, cont)
    requires k in s.cls && s.cls[k].binLock == Some(t)
    ensures Apply(g, s, FetchAdd(t)) == Moved(s, t, k, Added(k, cont), SizeOf(g, k))
  {
    assert s.cls[k := s.cls[k]] == s.cls;
  }

  lemma FetchAddKeeps(g: Config, s: Sys, t: nat)
    requires s in Good(g) && Enabled(g, s, FetchAdd(t))
    ensures Apply(g, s, FetchAdd(t)) in Good(g)
  {
    var k, cont := s.threads[t].pc.key, s.threads[t].pc.cont;
    ThreadFacts(g, s, t);
    FetchAddIsMove(g, s, t, k, cont);
    MovedKeeps(g, s, Moved(s, t, k, Added(k, cont), SizeOf(g, k)), t, k, Added(k, cont), SizeOf(g, k));
  }

  lemma FetchSubIsMove(g: Config, s: Sys, t: nat, k: Key, batch: seq<Addr>, bytes: int, cont: Cont)
    requires WfConfig(g) && Enabled(g, s, FetchSub(t)) && s.threads[t].pc == Subtract(k, batch, bytes, cont)
    requires k in s.cls && bytes <= s.foreign[k.node]
    ensures Apply(g, s, FetchSub(t)) == Moved(s, t, k, AfterSub(k, batch, cont), -bytes)
  {
    assert s.cls[k := s.cls[k]] == s.cls;
  }

  lemma FetchSubKeeps(g: Config, s: Sys, t: nat)
    requires s in Good(g) && Enabled(g, s, FetchSub(t))
    ensures Apply(g, s, FetchSub(t)) in Good(g)
  {
    var k := s.threads[t].pc.key;
    var batch, bytes, cont := s.threads[t].pc.batch, s.threads[t].pc.bytes, s.threads[t].pc.cont;
    ThreadFacts(g, s, t);
    CounterCoversDebt(g, s, t);
    FetchSubIsMove(g, s, t, k, batch, bytes, cont);
    SubtractedKeeps(g, s, t, k, batch, bytes, cont);
  }

  lemma SubtractedKeeps(g: Config, s: Sys, t: nat, k: Key, batch: seq<Addr>, bytes: int, cont: Cont)
    requires s in Good(g) && t < |s.threads| && s.threads[t].pc == Subtract(k, batch, bytes, cont)
    requires k in s.cls && k.node < |s.foreign| && batch != []
    requires ContOk(g, s.threads[t].cache, cont) && CacheOk(g, s.threads[t].cache) && NoDup(batch)
    ensures Moved(s, t, k, AfterSub(k, batch, cont), -bytes) in Good(g)
  {
    var pc := WantSc(k, FreeMany(batch, cont));
    assert IsKey(g, k);
    assert Thread(pc, s.threads[t].cache) in GoodThreads(g);
    MovedKeeps(g, s, Moved(s, t, k, pc, -bytes), t, k, pc, -bytes);
  }

  lemma ResumeOk(g: Config, k: Key, cont: Cont, cache: Cache)
    requires IsKey(g, k) && CacheOk(g, cache) && ContOk(g, cache, cont)
    ensures Thread(Resume(k, cont), cache) in GoodThreads(g)
    ensures HandOf(Resume(k, cont)) == [] && ScHeld(Resume(k, cont)) == None && BinHeld(Resume(k, cont)) == None
  {
  }

  lemma SettleQuietKeeps(g: Config, s: Sys, t: nat)
    requires s in Good(g) && Enabled(g, s, Settle(t))
    requires s.cls[s.threads[t].pc.key].bin.bytes <= High(g, s.threads[t].pc.key)
    ensures Apply(g, s, Settle(t)) in Good(g)
  {
    var k, cont := s.threads[t].pc.key, s.threads[t].pc.cont;
    ThreadFacts(g, s, t);
    ResumeOk(g, k, cont, s.threads[t].cache);
    MovedLocal(g, s, t, k, Resume(k, cont), 0);
    SettleQuietIsMove(g, s, t, k, cont);
    MovedKeeps(g, s, Moved(s, t, k, Resume(k, cont), 0), t, k, Resume(k, cont), 0);
  }

  lemma SettleQuietIsMove(g: Config, s: Sys, t: nat, k: Key, cont: Cont)
    requires WfConfig(g) && Enabled(g, s, Settle(t)) && s.threads[t].pc == Added(k, cont)
    requires k.node < |s.foreign| && s.cls[k].bin.bytes <= High(g, k)
    ensures Apply(g, s, Settle(t)) == Moved(s, t, k, Resume(k, cont), 0)
  {
    assert s.foreign[k.node := s.foreign[k.node]] == s.foreign;
  }

  /** Leaving the size class without a block. */
  lemma TakeNothing(g: Config, s: Sys, t: nat, r: Taken, pc: Pc)
    requires s in Good(g) && t < |s.threads| && s.threads[t].pc.InSc? && s.threads[t].pc.key in s.cls
    requires r.block == NULL && HandOf(s.threads[t].pc) == []
    requires pc == Idle || pc == WantBin(s.threads[t].pc.key, Drain) || pc == WantSc(s.threads[t].pc.key, Grow)
    ensures TakeBlock(g, s, t, r, pc) in Good(g)
  {
    var k := s.threads[t].pc.key;
    ThreadFacts(g, s, t);
    MovedLocal(g, s, t, k, pc, 0);
    assert s.foreign[k.node := s.foreign[k.node]] == s.foreign;
    assert TakeBlock(g, s, t, r, pc) == Moved(s, t, k, pc, 0);
    MovedKeeps(g, s, Moved(s, t, k, pc, 0), t, k, pc, 0);
  }

  // ---- foreign bins ----

  /** Blocks move between thread t's hand and the bin of class k; slabs, headers and caches stay. */
  ghost predicate BinShift(s: Sys, s': Sys, t: nat, k: Key, blocks: set<Addr>, from: Place, to: Place)
  {
    && Local(s, s', t, k) && k in s.cls
    && s'.hdr == s.hdr && s'.live == s.live && s'.place == MoveTo(s.place, blocks, to)
    && s'.cls[k].sc == s.cls[k].sc && s'.threads[t].cache == s.threads[t].cache
    && ((from == InHand(t) && to == InForeignBin(k)) || (from == InForeignBin(k) && to == InHand(t)))
    && blocks <= Holds(s, from)
    && Holds(s', from) == Holds(s, from) - blocks && Holds(s', to) == Holds(s, to) + blocks
    && Holds(s', InHand(t)) + Holds(s, InHand(t)) == blocks
  }

  lemma BinShiftPlaces(g: Config, s: Sys, s': Sys, t: nat, k: Key, blocks: set<Addr>, from: Place, to: Place)
    requires s in Good(g) && BinShift(s, s', t, k, blocks, from, to)
    ensures Places(s')
  {
    forall p | p != to ensures Holds(s', p) == Holds(s, p) - blocks {
      if p != from {
        forall b | b in blocks ensures b !in Holds(s, p) { assert b in Holds(s, from); }
        match p
        case InHand(u) => if u < |s.threads| { assert s'.threads[u] == s.threads[u]; }
        case InCache(u, _) => if u < |s.threads| && u != t { assert s'.threads[u] == s.threads[u]; }
        case OnFreeList(j) => if j in s.cls && j != k { assert s'.cls[j] == s.cls[j]; }
        case InForeignBin(j) => if j in s.cls { assert s'.cls[j] == s.cls[j]; }
        case Live =>
      }
    }
    PlacesStep(g, s, s', blocks, to);
  }

  lemma BinShiftSlabs(g: Config, s: Sys, s': Sys, t: nat, k: Key, blocks: set<Addr>, from: Place, to: Place)
    requires s in Good(g) && BinShift(s, s', t, k, blocks, from, to)
    ensures forall j, p :: InSystem(s', j, p) <==> InSystem(s, j, p)
    ensures SlabsApart(s') && Coverage(g, s')
  {
    forall j, p ensures InSystem(s', j, p) <==> InSystem(s, j, p) {
      if j in s.cls && j != k { assert s'.cls[j] == s.cls[j]; }
    }
    ApartStep(g, s, s', t, k);
    CoverageSame(g, s, s');
  }

  lemma BinShiftHomes(g: Config, s: Sys, s': Sys, t: nat, k: Key, blocks: set<Addr>, from: Place, to: Place)
    requires s in Good(g) && BinShift(s, s', t, k, blocks, from, to)
    requires forall b | b in blocks :: Stamped(g, s, b, k)
    requires to == InHand(t) && blocks != {} ==>
               var pc := s'.threads[t].pc; (pc.Subtract? || pc.WantSc?) && pc.key == k
    ensures T.Wf(g.table) && Homes(g, s')
  {
    BinShiftSlabs(g, s, s', t, k, blocks, from, to);
    OthersSame(s, s', t, k);
    forall b | b in s'.place && b !in blocks && !s'.place[b].OnFreeList? ensures b in Undisturbed(s, s', t) {
      assert b in Holds(s, s.place[b]);
      assert b in Holds(s, InHand(t)) ==> b in blocks;
    }
    forall b | b in s'.place && b in blocks ensures HomeOk(g, s', b, s'.place[b]) {
      assert Stamped(g, s, b, k);
      assert InSystem(s', k, s.hdr[b].slab);
    }
    HomesStep(g, s, s', t, blocks);
  }

  /** A class whose bin changed in a way its counters account for. */
  lemma BinGood(g: Config, k: Key, ks: KeyState, ks': KeyState)
    requires ks in GoodClasses(g, k) && ks'.sc == ks.sc && ks'.peak == ks.peak
    requires NoDup(ks'.bin.list) && ks'.bin.bytes == |ks'.bin.list| * SizeOf(g, k) && DrainsPaidFor(g, k, ks'.bin)
    ensures ks' in GoodClasses(g, k)
  {
    assert KeyInv(g, k, ks);
  }

  /** Everything but the blocks: the step's thread, class, locks and counters. */
  lemma BinShiftRest(g: Config, s: Sys, s': Sys, t: nat, k: Key)
    requires s in Good(g) && Local(s, s', t, k) && k in s.cls
    requires s'.threads[t] in GoodThreads(g) && s'.cls[k] in GoodClasses(g, k)
    requires ScHeld(s.threads[t].pc) == None && ScHeld(s'.threads[t].pc) == None && s'.cls[k].scLock == s.cls[k].scLock
    requires BinHeld(s.threads[t].pc) == Some(k) && Near(BinHeld(s'.threads[t].pc), k)
    requires s'.cls[k].binLock == (if BinHeld(s'.threads[t].pc) == Some(k) then Some(t) else None)
    ensures Shape(g, s') && Locks(s')
  {
    ShapeStep(g, s, s', t, k);
    assert HoldsItsLocks(s, t) && HeldByInsider(s, k);
    LocksStep(g, s, s', t, k);
  }

  lemma EnqueueKeeps(g: Config, s: Sys, t: nat, k: Key, b: Addr, cont: Cont)
    requires s in Good(g) && Enabled(g, s, RunBin(t)) && s.threads[t].pc == InBin(k, Enqueue(b, cont))
    ensures Apply(g, s, RunBin(t)) in Good(g)
  {
    var s' := Apply(g, s, RunBin(t));
    ThreadFacts(g, s, t);
    HandFacts(g, s, t, b);
    EnqueueClass(g, s, s', t, k, b);
    EnqueueBlocks(g, s, s', t, k, b, cont);
    BinShiftRest(g, s, s', t, k);
    EnqueueCounters(g, s, s', t, k, b, cont);
  }

  lemma EnqueueBlocks(g: Config, s: Sys, s': Sys, t: nat, k: Key, b: Addr, cont: Cont)
    requires s in Good(g) && Enabled(g, s, RunBin(t)) && s.threads[t].pc == InBin(k, Enqueue(b, cont))
    requires s' == Apply(g, s, RunBin(t)) && Stamped(g, s, b, k)
    requires Elems(s'.cls[k].bin.list) == Elems(s.cls[k].bin.list) + {b}
    ensures Places(s') && SlabsApart(s') && Coverage(g, s') && T.Wf(g.table) && Homes(g, s')
  {
    var blocks := {b};
    assert Holds(s, InHand(t)) == blocks && Holds(s', InHand(t)) == {};
    assert BinShift(s, s', t, k, blocks, InHand(t), InForeignBin(k));
    BinShiftPlaces(g, s, s', t, k, blocks, InHand(t), InForeignBin(k));
    BinShiftSlabs(g, s, s', t, k, blocks, InHand(t), InForeignBin(k));
    BinShiftHomes(g, s, s', t, k, blocks, InHand(t), InForeignBin(k));
  }

  lemma EnqueueClass(g: Config, s: Sys, s': Sys, t: nat, k: Key, b: Addr)
    requires s in Good(g) && k in s.cls && k in s'.cls && t < |s.threads|
    requires b in s.place && s.place[b] == InHand(t) && Stamped(g, s, b, k)
    requires var bin := s.cls[k].bin;
      s'.cls[k] == s.cls[k].(bin := bin.(list := [b] + bin.list, bytes := bin.bytes + HdrOf(s, b).size, enqueued := bin.enqueued + 1))
    ensures s'.cls[k] in GoodClasses(g, k)
    ensures Elems(s'.cls[k].bin.list) == Elems(s.cls[k].bin.list) + {b}
  {
    KeyFacts(g, s, k);
    var bin := s.cls[k].bin;
    assert b !in Holds(s, InForeignBin(k));
    EnqueuedGood(g, k, s.cls[k], b, s'.cls[k]);
  }

  lemma EnqueuedGood(g: Config, k: Key, ks: KeyState, b: Addr, ks': KeyState)
    requires ks in GoodClasses(g, k) && b !in ks.bin.list
    requires ks' == ks.(bin := ks.bin.(list := [b] + ks.bin.list, bytes := ks.bin.bytes + SizeOf(g, k), enqueued := ks.bin.enqueued + 1))
    ensures ks' in GoodClasses(g, k)
  {
    assert KeyInv(g, k, ks);
    NoDupPush(b, ks.bin.list);
    OneMore(|ks.bin.list|, SizeOf(g, k));
    OneMore(ks.bin.enqueued, SizeOf(g, k));
    BinGood(g, k, ks, ks');
  }

  lemma OneMore(n: int, d: int)
    ensures (n + 1) * d == n * d + d
  {
  }

  lemma EnqueueCounters(g: Config, s: Sys, s': Sys, t: nat, k: Key, b: Addr, cont: Cont)
    requires s in Good(g) && Enabled(g, s, RunBin(t)) && s.threads[t].pc == InBin(k, Enqueue(b, cont))
    requires s' == Apply(g, s, RunBin(t)) && Stamped(g, s, b, k)
    ensures BinsBounded(g, s') && ForeignExact(g, s')
  {
    ThreadFacts(g, s, t);
    KeyFacts(g, s, k);
    BoundedStep(g, s, s', t, k);
    ForeignStep(g, s, s', t, k);
  }

  /** The step that takes blocks off a bin, in either drain: the batch goes to thread t's hand. */
  ghost predicate Detaches(g: Config, s: Sys, s': Sys, t: nat, k: Key, n: nat, over: nat, batch: seq<Addr>, cont: Cont)
  {
    && t < |s.threads| && k in s.cls && n <= |s.cls[k].bin.list|
    && BinHeld(s.threads[t].pc) == Some(k) && !s.threads[t].pc.Pushed? && HandOf(s.threads[t].pc) == []
    && (Elems(batch) == Elems(s.cls[k].bin.list[..n]) && NoDup(batch) && |batch| == n)
    && var bin := s.cls[k].bin;
       s' == SetKey(SetPc(s, t, AfterDetach(k, batch, n * SizeOf(g, k), cont)), k,
               s.cls[k].(bin := bin.(list := bin.list[n..], bytes := bin.bytes - n * SizeOf(g, k), overflows := bin.overflows + over),
                         binLock := None))
             .(place := MoveTo(s.place, Elems(batch), InHand(t)))
  }

  lemma DetachThread(g: Config, s: Sys, t: nat, k: Key, n: nat, batch: seq<Addr>, cont: Cont, pc: Pc)
    requires WfConfig(g) && IsKey(g, k) && NoDup(batch) && |batch| == n && t < |s.threads|
    requires CacheOk(g, s.threads[t].cache) && ContOk(g, s.threads[t].cache, cont)
    requires pc == AfterDetach(k, batch, n * SizeOf(g, k), cont)
    ensures Thread(pc, s.threads[t].cache) in GoodThreads(g)
    ensures HandOf(pc) == batch && ScHeld(pc) == None && BinHeld(pc) == None
    ensures n > 0 ==> pc == Subtract(k, batch, n * SizeOf(g, k), cont)
    ensures forall m :: Unsubtracted(pc, m) == if m == k.node then n * SizeOf(g, k) else 0
  {
    SizesRoute(g, k);
    if n > 0 {
      MulMono(1, n, SizeOf(g, k));
    } else {
      ResumeOk(g, k, cont, s.threads[t].cache);
    }
  }

  lemma DetachKeeps(g: Config, s: Sys, s': Sys, t: nat, k: Key, n: nat, over: nat, batch: seq<Addr>, cont: Cont)
    requires s in Good(g) && Detaches(g, s, s', t, k, n, over, batch, cont)
    requires ContOk(g, s.threads[t].cache, cont)
    requires s'.cls[k] in GoodClasses(g, k) && s'.cls[k].bin.bytes <= High(g, k)
    ensures s' in Good(g)
  {
    ThreadFacts(g, s, t);
    KeyFacts(g, s, k);
    var pc := s'.threads[t].pc;
    DetachThread(g, s, t, k, n, batch, cont, pc);
    var blocks := Elems(batch);
    DetachShift(g, s, s', t, k, n, over, batch, cont);
    DetachStamped(g, s, s', t, k, n, over, batch, cont);
    BinShiftPlaces(g, s, s', t, k, blocks, InForeignBin(k), InHand(t));
    BinShiftSlabs(g, s, s', t, k, blocks, InForeignBin(k), InHand(t));
    BinShiftHomes(g, s, s', t, k, blocks, InForeignBin(k), InHand(t));
    BinShiftRest(g, s, s', t, k);
    DetachCounters(g, s, s', t, k, n, over, batch, cont);
  }

  lemma DetachShift(g: Config, s: Sys, s': Sys, t: nat, k: Key, n: nat, over: nat, batch: seq<Addr>, cont: Cont)
    requires s in Good(g) && Detaches(g, s, s', t, k, n, over, batch, cont)
    requires HandOf(s'.threads[t].pc) == batch
    ensures BinShift(s, s', t, k, Elems(batch), InForeignBin(k), InHand(t))
  {
    KeyFacts(g, s, k);
    SplitList(s.cls[k].bin.list, n);
  }

  lemma DetachStamped(g: Config, s: Sys, s': Sys, t: nat, k: Key, n: nat, over: nat, batch: seq<Addr>, cont: Cont)
    requires s in Good(g) && Detaches(g, s, s', t, k, n, over, batch, cont)
    ensures forall b | b in Elems(batch) :: Stamped(g, s, b, k)
  {
    forall b | b in Elems(batch) ensures Stamped(g, s, b, k) {
      assert b in Elems(s.cls[k].bin.list[..n]);
      assert b in Holds(s, InForeignBin(k));
      assert HomeOk(g, s, b, s.place[b]);
    }
  }

  lemma DetachCounters(g: Config, s: Sys, s': Sys, t: nat, k: Key, n: nat, over: nat, batch: seq<Addr>, cont: Cont)
    requires s in Good(g) && Detaches(g, s, s', t, k, n, over, batch, cont) && s'.cls[k].bin.bytes <= High(g, k)
    requires BinHeld(s'.threads[t].pc) == None
    requires forall m :: Unsubtracted(s'.threads[t].pc, m) == if m == k.node then n * SizeOf(g, k) else 0
    ensures BinsBounded(g, s') && ForeignExact(g, s')
  {
    ThreadFacts(g, s, t);
    KeyFacts(g, s, k);
    BoundedStep(g, s, s', t, k);
    ForeignStep(g, s, s', t, k);
  }

  lemma DrainKeeps(g: Config, s: Sys, t: nat, k: Key)
    requires s in Good(g) && Enabled(g, s, RunBin(t)) && s.threads[t].pc == InBin(k, Drain)
    ensures Apply(g, s, RunBin(t)) in Good(g)
  {
    var s' := Apply(g, s, RunBin(t));
    var bin := s.cls[k].bin;
    KeyFacts(g, s, k);
    DrainIsDetach(g, s, s', t, k, bin);
    BinGood(g, k, s.cls[k], s'.cls[k]);
    DetachKeeps(g, s, s', t, k, |bin.list|, 0, bin.list, Retry);
  }

  lemma DrainIsDetach(g: Config, s: Sys, s': Sys, t: nat, k: Key, bin: Bin)
    requires WfConfig(g) && Enabled(g, s, RunBin(t)) && s.threads[t].pc == InBin(k, Drain) && s' == Apply(g, s, RunBin(t))
    requires bin == s.cls[k].bin && NoDup(bin.list) && bin.bytes == |bin.list| * SizeOf(g, k)
    ensures Detaches(g, s, s', t, k, |bin.list|, 0, bin.list, Retry)
  {
    assert bin.list[..|bin.list|] == bin.list && bin.list[|bin.list|..] == [];
    assert bin.(list := [], bytes := 0)
        == bin.(list := bin.list[|bin.list|..], bytes := bin.bytes - |bin.list| * SizeOf(g, k), overflows := bin.overflows + 0);
  }

  lemma OverflowClass(g: Config, k: Key, ks: KeyState, n: nat, ks': KeyState)
    requires WfConfig(g) && IsKey(g, k) && ks in GoodClasses(g, k) && ks.bin.bytes > High(g, k)
    requires n == DetachCount(|ks.bin.list|, ks.bin.bytes, SizeOf(g, k), Low(g, k))
    requires var bin := ks.bin.(list := ks.bin.list[n..], bytes := ks.bin.bytes - n * SizeOf(g, k), overflows := ks.bin.overflows + 1);
      ks' == ks.(bin := bin, binLock := None)
    ensures ks' in GoodClasses(g, k) && ks'.bin.bytes <= High(g, k)
  {
    SizesRoute(g, k);
    assert KeyInv(g, k, ks);
    DetachCountTight(|ks.bin.list|, ks.bin.bytes, SizeOf(g, k), Low(g, k));
    SplitList(ks.bin.list, n);
    OneMore(ks.bin.overflows, High(g, k) - Low(g, k) + 1);
    assert DrainsPaidFor(g, k, ks'.bin);
    BinGood(g, k, ks, ks');
  }

  lemma SettleKeeps(g: Config, s: Sys, t: nat)
    requires s in Good(g) && Enabled(g, s, Settle(t))
    ensures Apply(g, s, Settle(t)) in Good(g)
  {
    var k, cont := s.threads[t].pc.key, s.threads[t].pc.cont;
    if s.cls[k].bin.bytes <= High(g, k) {
      SettleQuietKeeps(g, s, t);
    } else {
      ThreadFacts(g, s, t);
      KeyFacts(g, s, k);
      var s' := Apply(g, s, Settle(t));
      var n := DetachCount(|s.cls[k].bin.list|, s.cls[k].bin.bytes, SizeOf(g, k), Low(g, k));
      OverflowClass(g, k, s.cls[k], n, s'.cls[k]);
      OverflowIsDetach(g, s, s', t, k, cont, n);
      DetachKeeps(g, s, s', t, k, n, 1, Reverse(s.cls[k].bin.list[..n]), cont);
    }
  }

  lemma OverflowIsDetach(g: Config, s: Sys, s': Sys, t: nat, k: Key, cont: Cont, n: nat)
    requires WfConfig(g) && Enabled(g, s, Settle(t)) && s.threads[t].pc == Added(k, cont) && s' == Apply(g, s, Settle(t))
    requires s.cls[k].bin.bytes > High(g, k) && NoDup(s.cls[k].bin.list)
    requires n == DetachCount(|s.cls[k].bin.list|, s.cls[k].bin.bytes, SizeOf(g, k), Low(g, k))
    ensures Detaches(g, s, s', t, k, n, 1, Reverse(s.cls[k].bin.list[..n]), cont)
  {
    SplitList(s.cls[k].bin.list, n);
  }
}
