/** The size-class critical sections preserve the invariant, and with them every step does. */
module ProtocolClasses {
  import opened Arithmetic
  import opened Lists
  import opened Layout
  import opened SizeClassSpec
  import opened ForeignSpec
  import opened Protocol
  import opened ProtocolInvariant
  import opened ProtocolSteps
  import opened ProtocolTransfers
  import T = SizeClassTable

  // ---- where blocks come from ----

  /** Every placed block lies in a mapped slab of some class. */
  lemma PlacedHasSlab(g: Config, s: Sys, b: Addr) returns (j: Key, q: Addr)
    requires s in Good(g) && b in s.place
    ensures InSystem(s, j, q) && IsBase(q) && IsBlock(q, SizeOf(g, j), b)
    ensures s.place[b].OnFreeList? ==> j == s.place[b].key
    ensures !s.place[b].OnFreeList? ==> b in s.hdr && q == s.hdr[b].slab
  {
    assert b in Holds(s, s.place[b]);
    assert HomeOk(g, s, b, s.place[b]);
    match s.place[b]
    case OnFreeList(k) =>
      var p :| p in s.cls[k].sc.slabs && b in FreeOf(s.cls[k].sc, p);
      SlabFacts(g, s, k, p);
      return k, p;
    case Live =>
      j, q := KeyOf(g, HdrOf(s, b)), s.hdr[b].slab;
      SlabFacts(g, s, j, q);
    case InCache(t, c) =>
      j, q := Key(CacheOf(s, t).node, c), s.hdr[b].slab;
      SlabFacts(g, s, j, q);
    case InForeignBin(k) =>
      j, q := k, s.hdr[b].slab;
      SlabFacts(g, s, j, q);
    case InHand(t) =>
      j, q := PcOf(s, t).key, s.hdr[b].slab;
      SlabFacts(g, s, j, q);
  }

  lemma SlabFacts(g: Config, s: Sys, k: Key, p: Addr)
    requires s in Good(g) && InSystem(s, k, p)
    ensures IsBase(p) && SlabOk(p, SizeOf(g, k), FreeOf(s.cls[k].sc, p))
  {
    KeyFacts(g, s, k);
    assert SlabOk(p, SizeOf(g, k), FreeOf(s.cls[k].sc, p));
  }

  /** A block belongs to one slab of one class. */
  lemma SlabUnique(g: Config, s: Sys, b: Addr, k: Key, p: Addr, j: Key, q: Addr)
    requires s in Good(g) && InSystem(s, k, p) && InSystem(s, j, q)
    requires IsBlock(p, SizeOf(g, k), b) && IsBlock(q, SizeOf(g, j), b)
    ensures k == j && p == q
  {
    SlabFacts(g, s, k, p);
    SlabFacts(g, s, j, q);
    OwnerUnique(p, q, SizeOf(g, k), SizeOf(g, j), b);
  }

  /** The blocks of a freshly mapped region are nowhere in the system yet. */
  lemma FreshBlockIsNew(g: Config, s: Sys, p: Addr, size: nat, b: Addr)
    requires s in Good(g) && FreshRegion(s, Some(p)) && IsBlock(p, size, b)
    ensures b !in s.place
  {
    if b in s.place {
      var j, q := PlacedHasSlab(g, s, b);
      OwnerUnique(p, q, size, SizeOf(g, j), b);
    }
  }

  // ---- taking a block ----

  /** What an allocation that found a block did to the class: it grew by the slab at `os` or not at all. */
  ghost predicate TakeOk(c: ClassState, size: nat, r: Taken, os: Option<Addr>, grew: bool)
  {
    && Ok(r.state, size) && AtMostOneEmpty(r.state, size)
    && (grew ==> os.Some?)
    && r.state.slabs == (if grew then c.slabs + [os.value] else c.slabs)
    && r.slab in r.state.slabs && IsBlock(r.slab, size, r.block)
    && r.block !in FreeSet(r.state)
    && forall b :: b in FreeSet(r.state) || b == r.block <==> b in FreeSet(c) || (grew && IsBlock(os.value, size, b))
  }

  lemma ExistingTakes(c: ClassState, size: nat)
    requires Ok(c, size) && AtMostOneEmpty(c, size) && AllocateExisting(c).block != NULL
    ensures TakeOk(c, size, AllocateExisting(c), None, false)
  {
    AllocateExistingProperties(c, size);
  }

  lemma AllocateTakes(c: ClassState, size: nat, os: Option<Addr>) returns (grew: bool)
    requires Ok(c, size) && AtMostOneEmpty(c, size) && FreshBase(c, os) && Allocate(c, size, os).block != NULL
    ensures TakeOk(c, size, Allocate(c, size, os), os, grew)
    ensures grew ==> Exhausted(c)
  {
    AllocateProperties(c, size, os);
    grew := Exhausted(c) && os.Some?;
  }

  /** The state after thread t left the class with block r.block. */
  ghost predicate Takes(g: Config, s: Sys, s': Sys, t: nat, k: Key, r: Taken, os: Option<Addr>, grew: bool, peak: int)
  {
    && t < |s.threads| && s.threads[t].pc.InSc? && s.threads[t].pc.key == k && k in s.cls
    && HandOf(s.threads[t].pc) == []
    && FreshRegion(s, os) && TakeOk(s.cls[k].sc, SizeOf(g, k), r, os, grew)
    && s' == SetKey(SetPc(s, t, Stamp(k, r.block)), k, s.cls[k].(scLock := None, sc := r.state, peak := peak))
             .(hdr := s.hdr[r.block := HdrOf(s, r.block).(slab := r.slab)],
               place := MoveTo(Relabel(s.place, k, r.state), {r.block}, InHand(t)))
  }

  /** The block taken, and any block of a new slab, was free or unknown before. */
  lemma TakenWasFree(g: Config, s: Sys, s': Sys, t: nat, k: Key, r: Taken, os: Option<Addr>, grew: bool, peak: int, b: Addr)
    requires s in Good(g) && Takes(g, s, s', t, k, r, os, grew, peak)
    ensures b in FreeSet(r.state) || b == r.block ==> b !in s.place || s.place[b] == OnFreeList(k)
  {
    if b in FreeSet(r.state) || b == r.block {
      if b in FreeSet(s.cls[k].sc) {
        assert b in Holds(s, OnFreeList(k));
      } else {
        FreshBlockIsNew(g, s, os.value, SizeOf(g, k), b);
      }
    }
  }

  lemma TakePlaces(g: Config, s: Sys, s': Sys, t: nat, k: Key, r: Taken, os: Option<Addr>, grew: bool, peak: int)
    requires s in Good(g) && Takes(g, s, s', t, k, r, os, grew, peak)
    ensures Places(s')
  {
    forall p, b ensures b in Holds(s', p) <==> b in s'.place && s'.place[b] == p {
      TakenWasFree(g, s, s', t, k, r, os, grew, peak, b);
      assert b in Holds(s, p) <==> b in s.place && s.place[b] == p;
      TakeHolds(g, s, s', t, k, r, os, grew, peak, p);
    }
  }

  lemma TakeHolds(g: Config, s: Sys, s': Sys, t: nat, k: Key, r: Taken, os: Option<Addr>, grew: bool, peak: int, p: Place)
    requires Takes(g, s, s', t, k, r, os, grew, peak)
    ensures Holds(s', p) == if p == OnFreeList(k) then FreeSet(r.state) else if p == InHand(t) then {r.block} else Holds(s, p)
  {
    match p
    case InHand(u) => if u < |s.threads| && u != t { assert s'.threads[u] == s.threads[u]; }
    case InCache(u, _) => if u < |s.threads| && u != t { assert s'.threads[u] == s.threads[u]; }
    case OnFreeList(j) => if j in s.cls && j != k { assert s'.cls[j] == s.cls[j]; }
    case InForeignBin(j) => if j in s.cls && j != k { assert s'.cls[j] == s.cls[j]; }
    case Live =>
  }

  lemma TakeSlabs(g: Config, s: Sys, s': Sys, t: nat, k: Key, r: Taken, os: Option<Addr>, grew: bool, peak: int)
    requires s in Good(g) && Takes(g, s, s', t, k, r, os, grew, peak)
    ensures forall j, p :: InSystem(s', j, p) <==> InSystem(s, j, p) || (grew && j == k && p == os.value)
    ensures SlabsApart(s')
  {
    forall j, p ensures InSystem(s', j, p) <==> InSystem(s, j, p) || (grew && j == k && p == os.value) {
      if j in s.cls && j != k { assert s'.cls[j] == s.cls[j]; }
    }
  }

  lemma TakeCoverage(g: Config, s: Sys, s': Sys, t: nat, k: Key, r: Taken, os: Option<Addr>, grew: bool, peak: int)
    requires s in Good(g) && Takes(g, s, s', t, k, r, os, grew, peak)
    ensures Coverage(g, s')
  {
    TakeSlabs(g, s, s', t, k, r, os, grew, peak);
    forall j, p, b | InSystem(s', j, p) && IsBlock(p, SizeOf(g, j), b) ensures b in s'.place {
      if InSystem(s, j, p) {
        assert b in s.place;
        assert b in Holds(s, s.place[b]);
      }
    }
  }

  lemma TakeHomes(g: Config, s: Sys, s': Sys, t: nat, k: Key, r: Taken, os: Option<Addr>, grew: bool, peak: int)
    requires s in Good(g) && Takes(g, s, s', t, k, r, os, grew, peak)
    ensures T.Wf(g.table) && Homes(g, s')
  {
    OthersSame(s, s', t, k);
    forall x | x in s'.place && x != r.block && !s'.place[x].OnFreeList? ensures x in Undisturbed(s, s', t) {
      TakeLeaves(g, s, s', t, k, r, os, grew, peak, x);
    }
    TakenCarved(g, s, s', t, k, r, os, grew, peak);
    HomesStep(g, s, s', t, {r.block});
  }

  lemma TakenCarved(g: Config, s: Sys, s': Sys, t: nat, k: Key, r: Taken, os: Option<Addr>, grew: bool, peak: int)
    requires Takes(g, s, s', t, k, r, os, grew, peak)
    ensures r.block in s'.place && s'.place[r.block] == InHand(t)
    ensures T.Wf(g.table) ==> HomeOk(g, s', r.block, InHand(t))
  {
    assert InSystem(s', k, r.slab);
    assert Carved(g, s', r.block, k);
  }

  /** A block that is neither taken nor free is left alone. */
  lemma TakeLeaves(g: Config, s: Sys, s': Sys, t: nat, k: Key, r: Taken, os: Option<Addr>, grew: bool, peak: int, x: Addr)
    requires s in Good(g) && Takes(g, s, s', t, k, r, os, grew, peak)
    requires x in s'.place && x != r.block && !s'.place[x].OnFreeList?
    ensures x in Undisturbed(s, s', t)
  {
    TakeSlabs(g, s, s', t, k, r, os, grew, peak);
    assert x in Holds(s, s.place[x]);
    assert s'.threads[t].cache == s.threads[t].cache;
  }

  lemma TakeClass(g: Config, k: Key, ks: KeyState, r: Taken, os: Option<Addr>, grew: bool, ks': KeyState)
    requires ks in GoodClasses(g, k) && TakeOk(ks.sc, SizeOf(g, k), r, os, grew)
    requires ks' == ks.(scLock := None, sc := r.state, peak := Peak(g, k, ks, r.state))
    requires grew ==> |ks.sc.slabs| * Capacity(SizeOf(g, k)) < Outside(r.state, SizeOf(g, k))
    ensures ks' in GoodClasses(g, k)
  {
    assert KeyInv(g, k, ks);
  }

  lemma TakeRest(g: Config, s: Sys, s': Sys, t: nat, k: Key, r: Taken, os: Option<Addr>, grew: bool, peak: int)
    requires s in Good(g) && Takes(g, s, s', t, k, r, os, grew, peak) && k in s'.cls && s'.cls[k] in GoodClasses(g, k)
    ensures Shape(g, s') && Locks(s') && BinsBounded(g, s') && ForeignExact(g, s')
  {
    ThreadFacts(g, s, t);
    assert IsKey(g, k);
    StampingThread(g, k, r.block, s.threads[t].cache);
    LeaveClass(g, s, s', t, k);
  }

  lemma StampingThread(g: Config, k: Key, b: Addr, cache: Cache)
    requires IsKey(g, k) && CacheOk(g, cache)
    ensures Thread(Stamp(k, b), cache) in GoodThreads(g)
  {
  }

  /** Leaving a size class with its bin untouched keeps shape, locks and counters. */
  lemma LeaveClass(g: Config, s: Sys, s': Sys, t: nat, k: Key)
    requires s in Good(g) && Local(s, s', t, k) && k in s.cls && s.threads[t].pc.InSc? && s.threads[t].pc.key == k
    requires s'.threads[t] in GoodThreads(g) && s'.cls[k] in GoodClasses(g, k)
    requires ScHeld(s'.threads[t].pc) == None && BinHeld(s'.threads[t].pc) == None && !s'.threads[t].pc.Subtract?
    requires s'.cls[k].scLock == None && s'.cls[k].binLock == s.cls[k].binLock && s'.cls[k].bin == s.cls[k].bin
    requires s'.foreign == s.foreign
    ensures Shape(g, s') && Locks(s') && BinsBounded(g, s') && ForeignExact(g, s')
  {
    ThreadFacts(g, s, t);
    KeyFacts(g, s, k);
    ShapeStep(g, s, s', t, k);
    LocksStep(g, s, s', t, k);
    BoundedStep(g, s, s', t, k);
    ForeignStep(g, s, s', t, k);
  }

  lemma TakeKeeps(g: Config, s: Sys, s': Sys, t: nat, k: Key, r: Taken, os: Option<Addr>, grew: bool)
    requires s in Good(g) && k in s.cls
    requires Takes(g, s, s', t, k, r, os, grew, Peak(g, k, s.cls[k].(scLock := None), r.state))
    requires grew ==> |s.cls[k].sc.slabs| * Capacity(SizeOf(g, k)) < Outside(r.state, SizeOf(g, k))
    ensures s' in Good(g)
  {
    var peak := Peak(g, k, s.cls[k].(scLock := None), r.state);
    assert s.cls[k] in GoodClasses(g, k);
    TakeClass(g, k, s.cls[k], r, os, grew, s'.cls[k]);
    TakePlaces(g, s, s', t, k, r, os, grew, peak);
    TakeSlabs(g, s, s', t, k, r, os, grew, peak);
    TakeCoverage(g, s, s', t, k, r, os, grew, peak);
    TakeHomes(g, s, s', t, k, r, os, grew, peak);
    TakeRest(g, s, s', t, k, r, os, grew, peak);
  }

  /** allocate_existing under the lock. */
  lemma ProbeKeeps(g: Config, s: Sys, t: nat, k: Key, otherwise: Pc)
    requires s in Good(g) && t < |s.threads| && k in s.cls
    requires (s.threads[t].pc == InSc(k, Probe1) && otherwise == WantBin(k, Drain))
          || (s.threads[t].pc == InSc(k, Probe2) && otherwise == WantSc(k, Grow))
    ensures TakeBlock(g, s, t, AllocateExisting(s.cls[k].sc), otherwise) in Good(g)
  {
    var r := AllocateExisting(s.cls[k].sc);
    if r.block == NULL {
      TakeNothing(g, s, t, r, otherwise);
    } else {
      KeyFacts(g, s, k);
      ExistingTakes(s.cls[k].sc, SizeOf(g, k));
      TakeKeeps(g, s, TakeBlock(g, s, t, r, otherwise), t, k, r, None, false);
    }
  }

  /** allocate and allocate_new_slab under the lock. */
  lemma GrowKeeps(g: Config, s: Sys, t: nat, k: Key, os: Option<Addr>)
    requires s in Good(g) && t < |s.threads| && k in s.cls && FreshRegion(s, os)
    requires s.threads[t].pc == InSc(k, Plain) || s.threads[t].pc == InSc(k, Grow)
    ensures Capacity(SizeOf(g, k)) > 0
    ensures TakeBlock(g, s, t, Allocate(s.cls[k].sc, SizeOf(g, k), os), Idle) in Good(g)
  {
    KeyFacts(g, s, k);
    var c := s.cls[k].sc;
    var r := Allocate(c, SizeOf(g, k), os);
    if r.block == NULL {
      TakeNothing(g, s, t, r, Idle);
    } else {
      forall p | p in c.slabs && os.Some? ensures Apart(p, os.value) { assert InSystem(s, k, p); }
      var grew := AllocateTakes(c, SizeOf(g, k), os);
      if grew { NewSlabOnlyWhenAllUsed(c, SizeOf(g, k), os.value); }
      TakeKeeps(g, s, TakeBlock(g, s, t, r, Idle), t, k, r, os, grew);
    }
  }

  // ---- giving blocks back ----

  /** Blocks in hand for class k are outstanding blocks of it, each owned by the slab its raw_ptr names. */
  lemma HandIsBatch(g: Config, s: Sys, t: nat, k: Key, blocks: seq<Addr>)
    requires s in Good(g) && t < |s.threads| && k in s.cls && HandOf(s.threads[t].pc) == blocks
    requires s.threads[t].pc.InSc? && s.threads[t].pc.key == k
    ensures BatchOk(s.cls[k].sc, SizeOf(g, k), Owners(s), blocks)
    ensures forall b | b in blocks :: Stamped(g, s, b, k) && b in s.place && s.place[b] == InHand(t)
  {
    ThreadFacts(g, s, t);
    KeyFacts(g, s, k);
    forall b | b in blocks
      ensures Stamped(g, s, b, k) && b in s.place && s.place[b] == InHand(t)
      ensures Outstanding(s.cls[k].sc, SizeOf(g, k), Owner(Owners(s), b), b)
    {
      HandFacts(g, s, t, b);
      assert b !in Holds(s, OnFreeList(k));
      FreeBlockOwner(s.cls[k].sc, SizeOf(g, k), s.hdr[b].slab, b);
    }
  }

  /** The state after thread t returned its blocks to class k and left. */
  ghost predicate Gives(g: Config, s: Sys, s': Sys, t: nat, k: Key, blocks: seq<Addr>, sc: ClassState, cont: Cont, peak: int)
  {
    && t < |s.threads| && s.threads[t].pc.InSc? && s.threads[t].pc.key == k && k in s.cls
    && HandOf(s.threads[t].pc) == blocks
    && BatchOk(s.cls[k].sc, SizeOf(g, k), Owners(s), blocks)
    && (forall b | b in blocks :: Owner(Owners(s), b) in s.cls[k].sc.free)
    && sc == FreeBatch(s.cls[k].sc, SizeOf(g, k), Owners(s), blocks)
    && s' == SetKey(SetPc(s, t, Resume(k, cont)), k, s.cls[k].(scLock := None, sc := sc, peak := peak))
             .(place := Relabel(MoveTo(s.place, Elems(blocks), OnFreeList(k)), k, sc))
  }

  lemma GiveHolds(s: Sys, s': Sys, t: nat, k: Key, sc: ClassState, cont: Cont, peak: int, p: Place)
    requires t < |s.threads| && s.threads[t].pc.InSc? && k in s.cls
    requires s'.threads == s.threads[t := s.threads[t].(pc := Resume(k, cont))] && s'.live == s.live
    requires s'.cls == s.cls[k := s.cls[k].(scLock := None, sc := sc, peak := peak)]
    ensures Holds(s', p) == if p == OnFreeList(k) then FreeSet(sc) else if p == InHand(t) then {} else Holds(s, p)
  {
    match p
    case InHand(u) => if u < |s.threads| && u != t { assert s'.threads[u] == s.threads[u]; }
    case InCache(u, _) => if u < |s.threads| && u != t { assert s'.threads[u] == s.threads[u]; }
    case OnFreeList(j) => if j in s.cls && j != k { assert s'.cls[j] == s.cls[j]; }
    case InForeignBin(j) => if j in s.cls && j != k { assert s'.cls[j] == s.cls[j]; }
    case Live =>
  }

  lemma GivePlaces(g: Config, s: Sys, s': Sys, t: nat, k: Key, blocks: seq<Addr>, sc: ClassState, cont: Cont, peak: int)
    requires s in Good(g) && Gives(g, s, s', t, k, blocks, sc, cont, peak)
    ensures Places(s')
  {
    KeyFacts(g, s, k);
    FreeBatchProperties(s.cls[k].sc, SizeOf(g, k), Owners(s), blocks);
    assert Holds(s, InHand(t)) == Elems(blocks);
    forall p, b ensures b in Holds(s', p) <==> b in s'.place && s'.place[b] == p {
      GiveHolds(s, s', t, k, sc, cont, peak, p);
      GivePlace(g, s, s', t, k, blocks, sc, p, b);
    }
  }

  lemma GivePlace(g: Config, s: Sys, s': Sys, t: nat, k: Key, blocks: seq<Addr>, sc: ClassState, p: Place, b: Addr)
    requires s in Good(g) && k in s.cls && Holds(s, InHand(t)) == Elems(blocks)
    requires s'.place == Relabel(MoveTo(s.place, Elems(blocks), OnFreeList(k)), k, sc)
    requires forall x | x in FreeSet(sc) :: x in FreeSet(s.cls[k].sc) || x in blocks
    requires Holds(s', p) == if p == OnFreeList(k) then FreeSet(sc) else if p == InHand(t) then {} else Holds(s, p)
    ensures b in Holds(s', p) <==> b in s'.place && s'.place[b] == p
  {
    assert b in Holds(s, p) <==> b in s.place && s.place[b] == p;
    assert b in Holds(s, InHand(t)) <==> b in s.place && s.place[b] == InHand(t);
    assert b in Holds(s, OnFreeList(k)) <==> b in s.place && s.place[b] == OnFreeList(k);
  }

  lemma GiveSlabs(g: Config, s: Sys, s': Sys, t: nat, k: Key, blocks: seq<Addr>, sc: ClassState, cont: Cont, peak: int)
    requires s in Good(g) && Gives(g, s, s', t, k, blocks, sc, cont, peak)
    ensures forall j, p :: InSystem(s', j, p) ==> InSystem(s, j, p)
    ensures forall j, p :: j != k && InSystem(s, j, p) ==> InSystem(s', j, p)
    ensures SlabsApart(s')
  {
    KeyFacts(g, s, k);
    FreeBatchProperties(s.cls[k].sc, SizeOf(g, k), Owners(s), blocks);
    forall j, p ensures (InSystem(s', j, p) ==> InSystem(s, j, p)) && (j != k && InSystem(s, j, p) ==> InSystem(s', j, p)) {
      if j in s.cls && j != k { assert s'.cls[j] == s.cls[j]; }
    }
    ApartStep(g, s, s', t, k);
  }

  /** Blocks of surviving slabs stay accounted for. */
  lemma GiveCoverage(g: Config, s: Sys, s': Sys, t: nat, k: Key, blocks: seq<Addr>, sc: ClassState, cont: Cont, peak: int)
    requires s in Good(g) && Gives(g, s, s', t, k, blocks, sc, cont, peak)
    ensures Coverage(g, s')
  {
    KeyFacts(g, s, k);
    FreeBatchProperties(s.cls[k].sc, SizeOf(g, k), Owners(s), blocks);
    GiveSlabs(g, s, s', t, k, blocks, sc, cont, peak);
    forall j, p, b | InSystem(s', j, p) && IsBlock(p, SizeOf(g, j), b) ensures b in s'.place {
      assert InSystem(s, j, p) && b in s.place;
      assert b in Holds(s, s.place[b]);
      if b in blocks || s.place[b] == OnFreeList(k) {
        var j', q := PlacedHasSlab(g, s, b);
        if b in blocks { HandFacts(g, s, t, b); SlabUnique(g, s, b, k, s.hdr[b].slab, j, p); }
        else { SlabUnique(g, s, b, j', q, j, p); }
      }
    }
  }

  /** A slab with a block anywhere but on its free list is not unmapped. */
  lemma GiveKeepsSlabs(g: Config, s: Sys, s': Sys, t: nat, k: Key, blocks: seq<Addr>, sc: ClassState, cont: Cont, peak: int, b: Addr)
    requires s in Good(g) && Gives(g, s, s', t, k, blocks, sc, cont, peak)
    requires b in s.place && !s.place[b].OnFreeList? && b !in blocks
    ensures b in s.hdr && forall j :: InSystem(s, j, s.hdr[b].slab) ==> InSystem(s', j, s.hdr[b].slab)
  {
    KeyFacts(g, s, k);
    FreeBatchProperties(s.cls[k].sc, SizeOf(g, k), Owners(s), blocks);
    GiveSlabs(g, s, s', t, k, blocks, sc, cont, peak);
    var j, q := PlacedHasSlab(g, s, b);
    assert b !in Holds(s, OnFreeList(k));
    assert InSystem(s, k, q) && j != k ==> Apart(q, q);
  }

  lemma GiveHomes(g: Config, s: Sys, s': Sys, t: nat, k: Key, blocks: seq<Addr>, sc: ClassState, cont: Cont, peak: int)
    requires s in Good(g) && Gives(g, s, s', t, k, blocks, sc, cont, peak)
    ensures T.Wf(g.table) && Homes(g, s')
  {
    OthersSame(s, s', t, k);
    forall b | b in s'.place && !s'.place[b].OnFreeList? ensures b in Undisturbed(s, s', t) {
      assert b in Holds(s, s.place[b]);
      GiveKeepsSlabs(g, s, s', t, k, blocks, sc, cont, peak, b);
    }
    HomesStep(g, s, s', t, {});
  }

  lemma GiveClass(g: Config, k: Key, ks: KeyState, own: map<Addr, Addr>, blocks: seq<Addr>, ks': KeyState)
    requires ks in GoodClasses(g, k) && BatchOk(ks.sc, SizeOf(g, k), own, blocks)
    requires forall b | b in blocks :: Owner(own, b) in ks.sc.free
    requires ks' == ks.(scLock := None, sc := FreeBatch(ks.sc, SizeOf(g, k), own, blocks),
                        peak := Peak(g, k, ks, FreeBatch(ks.sc, SizeOf(g, k), own, blocks)))
    ensures ks' in GoodClasses(g, k)
  {
    assert KeyInv(g, k, ks);
    FreeBatchProperties(ks.sc, SizeOf(g, k), own, blocks);
    if |ks'.sc.slabs| > 0 {
      MulMono(|ks'.sc.slabs| - 1, |ks.sc.slabs| - 1, Capacity(SizeOf(g, k)));
    }
  }

  lemma GiveKeeps(g: Config, s: Sys, s': Sys, t: nat, k: Key, blocks: seq<Addr>, sc: ClassState, cont: Cont)
    requires s in Good(g) && k in s.cls
    requires Gives(g, s, s', t, k, blocks, sc, cont, Peak(g, k, s.cls[k].(scLock := None), sc))
    requires ContOk(g, s.threads[t].cache, cont)
    ensures s' in Good(g)
  {
    var peak := Peak(g, k, s.cls[k].(scLock := None), sc);
    ThreadFacts(g, s, t);
    assert s.cls[k] in GoodClasses(g, k) && IsKey(g, k);
    GiveClass(g, k, s.cls[k], Owners(s), blocks, s'.cls[k]);
    ResumeOk(g, k, cont, s.threads[t].cache);
    LeaveClass(g, s, s', t, k);
    GivePlaces(g, s, s', t, k, blocks, sc, cont, peak);
    GiveSlabs(g, s, s', t, k, blocks, sc, cont, peak);
    GiveCoverage(g, s, s', t, k, blocks, sc, cont, peak);
    GiveHomes(g, s, s', t, k, blocks, sc, cont, peak);
  }

  /** deallocate and deallocate_batch under the lock: raw_ptr is valid for every block, and either is the batch
      specification. */
  lemma GiveBackGives(g: Config, s: Sys, t: nat, k: Key, op: ScOp)
    requires s in Good(g) && t < |s.threads| && k in s.cls && s.threads[t].pc == InSc(k, op) && (op.FreeOne? || op.FreeMany?)
    ensures forall b | b in OpBlocks(op) :: Owner(Owners(s), b) in s.cls[k].sc.free
    ensures var sc := FreeBatch(s.cls[k].sc, SizeOf(g, k), Owners(s), OpBlocks(op));
      Gives(g, s, GiveBack(g, s, t, OpBlocks(op), op.FreeOne?, op.cont), t, k, OpBlocks(op), sc, op.cont,
            Peak(g, k, s.cls[k].(scLock := None), sc))
  {
    var blocks := OpBlocks(op);
    var c := s.cls[k].sc;
    ThreadFacts(g, s, t);
    KeyFacts(g, s, k);
    HandIsBatch(g, s, t, k, blocks);
    FreeBatchProperties(c, SizeOf(g, k), Owners(s), blocks);
    if op.FreeOne? { DeallocateIsBatchOfOne(c, SizeOf(g, k), Owners(s), op.block); }
  }

  lemma GiveBackKeeps(g: Config, s: Sys, t: nat, k: Key, op: ScOp)
    requires s in Good(g) && t < |s.threads| && k in s.cls && s.threads[t].pc == InSc(k, op) && (op.FreeOne? || op.FreeMany?)
    ensures GiveBack(g, s, t, OpBlocks(op), op.FreeOne?, op.cont) in Good(g)
  {
    ThreadFacts(g, s, t);
    GiveBackGives(g, s, t, k, op);
    GiveKeeps(g, s, GiveBack(g, s, t, OpBlocks(op), op.FreeOne?, op.cont), t, k, OpBlocks(op),
              FreeBatch(s.cls[k].sc, SizeOf(g, k), Owners(s), OpBlocks(op)), op.cont);
  }

  lemma RunScKeeps(g: Config, s: Sys, t: nat, os: Option<Addr>)
    requires s in Good(g) && Enabled(g, s, RunSc(t, os))
    ensures Apply(g, s, RunSc(t, os)) in Good(g)
  {
    var k := s.threads[t].pc.key;
    match s.threads[t].pc.op
    case Plain => GrowKeeps(g, s, t, k, os);
    case Grow => GrowKeeps(g, s, t, k, os);
    case Probe1 => ProbeKeeps(g, s, t, k, WantBin(k, Drain));
    case Probe2 => ProbeKeeps(g, s, t, k, WantSc(k, Grow));
    case FreeOne(b, cont) => GiveBackKeeps(g, s, t, k, s.threads[t].pc.op);
    case FreeMany(batch, cont) => GiveBackKeeps(g, s, t, k, s.threads[t].pc.op);
  }

  lemma RunBinKeeps(g: Config, s: Sys, t: nat)
    requires s in Good(g) && Enabled(g, s, RunBin(t))
    ensures Apply(g, s, RunBin(t)) in Good(g)
  {
    var k := s.threads[t].pc.key;
    match s.threads[t].pc.bop
    case Enqueue(b, cont) => EnqueueKeeps(g, s, t, k, b, cont);
    case Drain => DrainKeeps(g, s, t, k);
  }

  // ---- every step, every run ----

  lemma StepKeeps(g: Config, s: Sys, a: Action)
    requires s in Good(g) && Enabled(g, s, a)
    ensures Apply(g, s, a) in Good(g)
  {
    match a
    case Attach(t, node, use) => AttachKeeps(g, s, t, node, use);
    case Toggle(t, use) => ToggleKeeps(g, s, t, use);
    case Migrate(t, node, use) => MigrateKeeps(g, s, t, node, use);
    case Exit(t) => ExitKeeps(g, s, t);
    case FlushNext(t) => FlushNextKeeps(g, s, t);
    case Malloc(t, c) => MallocKeeps(g, s, t, c);
    case ReadHint(t, zero) => ReadHintKeeps(g, s, t, zero);
    case LockSc(t) => LockScKeeps(g, s, t);
    case RunSc(t, os) => RunScKeeps(g, s, t, os);
    case StampBlock(t) => StampKeeps(g, s, t);
    case Free(t, b) => FreeKeeps(g, s, t, b);
    case LockBin(t) => LockBinKeeps(g, s, t);
    case RunBin(t) => RunBinKeeps(g, s, t);
    case FetchAdd(t) => FetchAddKeeps(g, s, t);
    case Settle(t) => SettleKeeps(g, s, t);
    case FetchSub(t) => FetchSubKeeps(g, s, t);
  }

  lemma InitIsGood(g: Config)
    requires WfConfig(g)
    ensures Init(g) in Good(g)
  {
    var s := Init(g);
    forall k ensures k in s.cls <==> IsKey(g, k) {
      assert k == Key(k.node, k.cls);
    }
    forall k | k in s.cls ensures s.cls[k] in GoodClasses(g, k) {
      var size := SizeOf(g, k);
      assert Ok(s.cls[k].sc, size);
    }
    forall t | 0 <= t < |s.threads| ensures s.threads[t] in GoodThreads(g) {}
    forall n | 0 <= n < |s.foreign| ensures s.foreign[n] == Sum(CountedSeq(g, s, n)) + Sum(UnsubtractedSeq(s, n)) {
      SumZero(CountedSeq(g, s, n));
      SumZero(UnsubtractedSeq(s, n));
    }
    assert forall p, b :: b !in Holds(s, p);
  }

  /** Every state of every run satisfies the invariant. */
  lemma {:induction false} RunKeeps(g: Config, s: Sys, run: seq<Action>, s': Sys)
    requires s in Good(g) && WfConfig(g) && IsRun(g, s, run, s')
    ensures s' in Good(g)
    decreases |run|
  {
    if run != [] {
      StepKeeps(g, s, run[0]);
      RunKeeps(g, Apply(g, s, run[0]), run[1..], s');
    }
  }
}
