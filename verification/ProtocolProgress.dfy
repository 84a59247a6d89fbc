/** Every operation of the step system ends, and what an allocation ends with. */
module ProtocolProgress {
  import opened Arithmetic
  import opened Lists
  import opened Layout
  import opened SizeClassSpec
  import opened ForeignSpec
  import opened Protocol
  import opened ProtocolInvariant
  import opened ProtocolSteps
  import opened ProtocolTransfers
  import opened ProtocolClasses
  import opened ProtocolTheorems
  import T = SizeClassTable

  // ---- every operation ends ----

  function Cached(bins: seq<CacheBin>): nat
  {
    if bins == [] then 0 else |bins[0].list| + Cached(bins[1..])
  }

  function Blocks(th: Thread): nat
  {
    if th.cache.Cache? then Cached(th.cache.bins) else 0
  }

  /** How far a pc is from Idle, not counting turns of the flush loop. */
  function Stage(pc: Pc): nat
  {
    match pc
    case Idle => 0
    case Faulted => 0
    case Stamp(_, _) => 1
    case Flush(_) => 2
    case WantSc(_, op) => ScStage(op) + 1
    case InSc(_, op) => ScStage(op)
    case WantBin(_, op) => if op.Drain? then 13 else 24
    case InBin(_, op) => if op.Drain? then 12 else 23
    case Subtract(_, _, _, cont) => if cont.Retry? then 11 else 20
    case Pushed(_, _) => 22
    case Added(_, _) => 21
    case Hint(_) => 16
  }

  function ScStage(op: ScOp): nat
  {
    match op
    case Plain => 3
    case Grow => 3
    case Probe2 => 5
    case Probe1 => 14
    case FreeOne(_, cont) => if cont.Retry? then 9 else 18
    case FreeMany(_, cont) => if cont.Retry? then 9 else 18
  }

  lemma {:induction false} CachedAfterPop(bins: seq<CacheBin>, i: nat, bin: CacheBin)
    requires i < |bins| && |bin.list| + 1 == |bins[i].list|
    ensures Cached(bins[i := bin]) + 1 == Cached(bins)
  {
    if i > 0 {
      CachedAfterPop(bins[1..], i - 1, bin);
      assert bins[i := bin][1..] == bins[1..][i - 1 := bin];
    } else {
      assert bins[i := bin][1..] == bins[1..];
    }
  }

  lemma {:induction false} NothingCached(bins: seq<CacheBin>)
    requires forall c | 0 <= c < |bins| :: bins[c].list == []
    ensures Cached(bins) == 0
  {
    if bins != [] { NothingCached(bins[1..]); }
  }

  ghost predicate Closer(th: Thread, th': Thread)
  {
    Blocks(th') < Blocks(th) || (Blocks(th') == Blocks(th) && Stage(th'.pc) < Stage(th.pc))
  }

  /** Each own step brings an operation closer to its end, whatever other threads do in between: the pair
      of cached blocks and stage falls lexicographically until the thread is idle again. */
  lemma OwnStepsMakeProgress(g: Config, s: Sys, a: Action)
    requires Reachable(g, s) && Enabled(g, s, a) && !s.threads[a.t].pc.Idle?
    ensures a.t < |Apply(g, s, a).threads| && Closer(s.threads[a.t], Apply(g, s, a).threads[a.t])
    ensures forall u | 0 <= u < |s.threads| && u != a.t ::
              u < |Apply(g, s, a).threads| && Apply(g, s, a).threads[u] == s.threads[u]
  {
    ReachableIsGood(g, s);
    OtherThreadsStay(g, s, a);
    if a.FlushNext? { FlushFalls(g, s, a.t); } else { StageFalls(g, s, a); }
  }

  lemma OtherThreadsStay(g: Config, s: Sys, a: Action)
    requires WfConfig(g) && Enabled(g, s, a)
    ensures |Apply(g, s, a).threads| == |s.threads|
    ensures forall u | 0 <= u < |s.threads| && u != a.t :: Apply(g, s, a).threads[u] == s.threads[u]
  {
    match a
    case RunSc(t, os) => var _ := RunScThread(g, s, t, os);
    case FlushNext(t) => OnlyOwnThread(g, s, a);
    case Malloc(t, c) => OnlyOwnThread(g, s, a);
    case Free(t, b) => OnlyOwnThread(g, s, a);
    case _ =>
  }

  lemma OnlyOwnThread(g: Config, s: Sys, a: Action)
    requires WfConfig(g) && Enabled(g, s, a) && (a.FlushNext? || a.Malloc? || a.Free?)
    ensures |Apply(g, s, a).threads| == |s.threads|
    ensures forall u | 0 <= u < |s.threads| && u != a.t :: Apply(g, s, a).threads[u] == s.threads[u]
  {
  }

  lemma FlushFalls(g: Config, s: Sys, t: nat)
    requires s in Good(g) && WfConfig(g) && Enabled(g, s, FlushNext(t))
    ensures t < |Apply(g, s, FlushNext(t)).threads| && Closer(s.threads[t], Apply(g, s, FlushNext(t)).threads[t])
  {
    ThreadFacts(g, s, t);
    var cache := s.threads[t].cache;
    var next := s.threads[t].pc.next;
    var i := FirstNonEmpty(cache.bins, 0);
    if i < |cache.bins| {
      CachedAfterPop(cache.bins, i, Apply(g, s, FlushNext(t)).threads[t].cache.bins[i]);
    } else {
      NothingCached(cache.bins);
      if next.Cache? { NothingCached(next.bins); }
    }
  }

  lemma StageFalls(g: Config, s: Sys, a: Action)
    requires WfConfig(g) && Enabled(g, s, a) && !s.threads[a.t].pc.Idle? && !a.FlushNext?
    ensures a.t < |Apply(g, s, a).threads| && Closer(s.threads[a.t], Apply(g, s, a).threads[a.t])
  {
    match a
    case RunSc(t, os) => var _ := RunScThread(g, s, t, os);
    case RunBin(t) => RunBinFalls(g, s, t);
    case Settle(t) => SettleFalls(g, s, t);
    case FetchSub(t) => FetchSubFalls(g, s, t);
    case _ =>
  }

  lemma FetchSubFalls(g: Config, s: Sys, t: nat)
    requires WfConfig(g) && Enabled(g, s, FetchSub(t))
    ensures t < |Apply(g, s, FetchSub(t)).threads| && Closer(s.threads[t], Apply(g, s, FetchSub(t)).threads[t])
  {
  }

  lemma RunBinFalls(g: Config, s: Sys, t: nat)
    requires WfConfig(g) && Enabled(g, s, RunBin(t))
    ensures t < |Apply(g, s, RunBin(t)).threads| && Closer(s.threads[t], Apply(g, s, RunBin(t)).threads[t])
  {
  }

  lemma SettleFalls(g: Config, s: Sys, t: nat)
    requires WfConfig(g) && Enabled(g, s, Settle(t))
    ensures t < |Apply(g, s, Settle(t)).threads| && Closer(s.threads[t], Apply(g, s, Settle(t)).threads[t])
  {
  }

  /** The thread list after thread t went on to `pc`, a later stage. */
  ghost predicate Advances(s: Sys, s': Sys, t: nat, pc: Pc)
    requires t < |s.threads|
  {
    s'.threads == s.threads[t := s.threads[t].(pc := pc)] && Stage(pc) < Stage(s.threads[t].pc)
  }

  /** A size-class critical section changes only its own thread, and takes it to a later stage. */
  lemma RunScThread(g: Config, s: Sys, t: nat, os: Option<Addr>) returns (pc: Pc)
    requires WfConfig(g) && Enabled(g, s, RunSc(t, os))
    ensures Advances(s, Apply(g, s, RunSc(t, os)), t, pc)
  {
    var k := s.threads[t].pc.key;
    var c, size := s.cls[k].sc, SizeOf(g, k);
    match s.threads[t].pc.op
    case Plain => pc := GrowThread(g, s, t, os);
    case Grow => pc := GrowThread(g, s, t, os);
    case Probe1 => pc := TakeThread(g, s, t, AllocateExisting(c), WantBin(k, Drain));
    case Probe2 => pc := TakeThread(g, s, t, AllocateExisting(c), WantSc(k, ScOp.Grow));
    case FreeOne(b, cont) => pc := GiveThread(g, s, t, [b], true, cont);
    case FreeMany(batch, cont) => pc := GiveThread(g, s, t, batch, false, cont);
  }

  lemma GrowThread(g: Config, s: Sys, t: nat, os: Option<Addr>) returns (pc: Pc)
    requires WfConfig(g) && Enabled(g, s, RunSc(t, os)) && (s.threads[t].pc.op.Plain? || s.threads[t].pc.op.Grow?)
    ensures Advances(s, Apply(g, s, RunSc(t, os)), t, pc)
  {
    var k := s.threads[t].pc.key;
    if Capacity(SizeOf(g, k)) == 0 {
      pc := Faulted;
    } else {
      pc := TakeThread(g, s, t, Allocate(s.cls[k].sc, SizeOf(g, k), os), Idle);
    }
  }

  lemma TakeThread(g: Config, s: Sys, t: nat, r: Taken, otherwise: Pc) returns (pc: Pc)
    requires t < |s.threads| && s.threads[t].pc.InSc? && s.threads[t].pc.key in s.cls
    requires Stage(otherwise) < Stage(s.threads[t].pc)
    ensures Advances(s, TakeBlock(g, s, t, r, otherwise), t, pc)
    ensures pc == if r.block == NULL then otherwise else Stamp(s.threads[t].pc.key, r.block)
  {
    pc := if r.block == NULL then otherwise else Stamp(s.threads[t].pc.key, r.block);
  }

  lemma GiveThread(g: Config, s: Sys, t: nat, blocks: seq<Addr>, single: bool, cont: Cont) returns (pc: Pc)
    requires t < |s.threads| && s.threads[t].pc.InSc? && s.threads[t].pc.key in s.cls && (single ==> |blocks| == 1)
    requires Stage(Resume(s.threads[t].pc.key, cont)) < Stage(s.threads[t].pc)
    ensures Advances(s, GiveBack(g, s, t, blocks, single, cont), t, pc)
    ensures pc == Faulted || pc == Resume(s.threads[t].pc.key, cont)
  {
    pc := GiveBack(g, s, t, blocks, single, cont).threads[t].pc;
  }

  // ---- what an allocation ends with ----

  /** On the way from a cache miss for class k to a block: reading the hint, inside or waiting for class k,
      draining its bin, or about to stamp the block. */
  predicate Allocating(pc: Pc, k: Key)
  {
    match pc
    case Hint(j) => j == k
    case Stamp(j, _) => j == k
    case WantSc(j, op) => j == k && AllocationOp(op)
    case InSc(j, op) => j == k && AllocationOp(op)
    case WantBin(j, op) => j == k && op.Drain?
    case InBin(j, op) => j == k && op.Drain?
    case Subtract(j, _, _, cont) => j == k && cont.Retry?
    case _ => false
  }

  predicate AllocationOp(op: ScOp)
  {
    match op
    case FreeOne(_, _) => false
    case FreeMany(_, cont) => cont.Retry?
    case _ => true
  }

  /** A pc that an allocation for class k may reach, or its end: stamped, or refused by the OS with every
      slab of the class full. */
  ghost predicate AllocationGoesOn(s: Sys, a: Action, k: Key, pc: Pc)
  {
    Allocating(pc, k) || (pc.Idle? && (a.StampBlock? || (a.RunSc? && a.os.None? && k in s.cls && Exhausted(s.cls[k].sc))))
  }

  /** Each own step of an allocation for class k stays on class k until it stamps a block of that class or
      the OS has refused a slab; with OwnStepsMakeProgress, every allocation ends that way. */
  lemma AllocationsServeTheirClass(g: Config, s: Sys, a: Action, k: Key)
    requires Reachable(g, s) && Enabled(g, s, a) && Allocating(s.threads[a.t].pc, k)
    ensures a.t < |Apply(g, s, a).threads| && AllocationGoesOn(s, a, k, Apply(g, s, a).threads[a.t].pc)
  {
    ReachableIsGood(g, s);
    AllocationGoesOnFromGood(g, s, a, k);
  }

  lemma AllocationGoesOnFromGood(g: Config, s: Sys, a: Action, k: Key)
    requires s in Good(g) && WfConfig(g) && Enabled(g, s, a) && Allocating(s.threads[a.t].pc, k)
    ensures a.t < |Apply(g, s, a).threads| && AllocationGoesOn(s, a, k, Apply(g, s, a).threads[a.t].pc)
  {
    StepKeeps(g, s, a);
    OtherThreadsStay(g, s, a);
    ThreadFacts(g, Apply(g, s, a), a.t);
    match a
    case RunSc(t, os) =>
      RefusedOnlyWhenFull(g, s, k, os);
      AllocationUnderLock(g, s, t, os, k);
    case RunBin(t) => AllocationDrains(g, s, t, k);
    case FetchSub(t) => AllocationSubtracts(g, s, t, k);
    case _ =>
  }

  lemma RefusedOnlyWhenFull(g: Config, s: Sys, k: Key, os: Option<Addr>)
    requires s in Good(g) && k in s.cls && FreshRegion(s, os)
    ensures Capacity(SizeOf(g, k)) > 0
    ensures Allocate(s.cls[k].sc, SizeOf(g, k), os).block == NULL ==> os.None? && Exhausted(s.cls[k].sc)
  {
    KeyFacts(g, s, k);
    FreshForClass(s, k, os);
    AllocateProperties(s.cls[k].sc, SizeOf(g, k), os);
  }

  lemma AllocationUnderLock(g: Config, s: Sys, t: nat, os: Option<Addr>, k: Key)
    requires WfConfig(g) && Enabled(g, s, RunSc(t, os)) && Allocating(s.threads[t].pc, k) && Capacity(SizeOf(g, k)) > 0
    requires Allocate(s.cls[k].sc, SizeOf(g, k), os).block == NULL ==> os.None? && Exhausted(s.cls[k].sc)
    ensures t < |Apply(g, s, RunSc(t, os)).threads|
    ensures AllocationGoesOn(s, RunSc(t, os), k, Apply(g, s, RunSc(t, os)).threads[t].pc) || Apply(g, s, RunSc(t, os)).threads[t].pc.Faulted?
  {
    var c, size := s.cls[k].sc, SizeOf(g, k);
    match s.threads[t].pc.op
    case Plain => var _ := TakeThread(g, s, t, Allocate(c, size, os), Idle);
    case Grow => var _ := TakeThread(g, s, t, Allocate(c, size, os), Idle);
    case Probe1 => var _ := TakeThread(g, s, t, AllocateExisting(c), WantBin(k, Drain));
    case Probe2 => var _ := TakeThread(g, s, t, AllocateExisting(c), WantSc(k, ScOp.Grow));
    case FreeMany(batch, cont) => var _ := GiveThread(g, s, t, batch, false, cont);
  }

  lemma AllocationDrains(g: Config, s: Sys, t: nat, k: Key)
    requires WfConfig(g) && Enabled(g, s, RunBin(t)) && Allocating(s.threads[t].pc, k)
    ensures t < |Apply(g, s, RunBin(t)).threads| && Allocating(Apply(g, s, RunBin(t)).threads[t].pc, k)
  {
  }

  lemma AllocationSubtracts(g: Config, s: Sys, t: nat, k: Key)
    requires WfConfig(g) && Enabled(g, s, FetchSub(t)) && Allocating(s.threads[t].pc, k)
    ensures t < |Apply(g, s, FetchSub(t)).threads|
    ensures Allocating(Apply(g, s, FetchSub(t)).threads[t].pc, k) || Apply(g, s, FetchSub(t)).threads[t].pc.Faulted?
  {
  }

  // ---- an allocation that meets no contention ----

  /** No other thread holds a mutex of class k. */
  ghost predicate AloneOn(s: Sys, t: nat, k: Key)
  {
    && k in s.cls
    && (s.cls[k].scLock == None || s.cls[k].scLock == Some(t))
    && (s.cls[k].binLock == None || s.cls[k].binLock == Some(t))
  }

  /** The hint a step reads is the counter's value: no other thread is between two accesses to it. */
  ghost predicate ExactHint(s: Sys, a: Action)
  {
    match a
    case ReadHint(t, zero) =>
      t < |s.threads| && s.threads[t].pc.Hint? && s.threads[t].pc.key.node < |s.foreign|
      && (zero <==> s.foreign[s.threads[t].pc.key.node] == 0)
    case _ => true
  }

  /** A run of thread t alone in which every hint is exact. */
  ghost predicate IsSoloRun(g: Config, s: Sys, t: nat, run: seq<Action>, s': Sys)
    requires WfConfig(g)
    decreases |run|
  {
    if run == [] then s' == s
    else run[0].t == t && ExactHint(s, run[0]) && Enabled(g, s, run[0]) && IsSoloRun(g, Apply(g, s, run[0]), t, run[1..], s')
  }

  lemma {:induction false} SoloRunIsRun(g: Config, s: Sys, t: nat, run: seq<Action>, s': Sys)
    requires WfConfig(g) && IsSoloRun(g, s, t, run, s')
    ensures IsRun(g, s, run, s')
    decreases |run|
  {
    if run != [] { SoloRunIsRun(g, Apply(g, s, run[0]), t, run[1..], s'); }
  }

  /** The step a thread on its way to a block takes when it runs alone. */
  ghost function NextAction(s: Sys, t: nat, os: Option<Addr>): Action
    requires t < |s.threads|
  {
    match s.threads[t].pc
    case Hint(k) => ReadHint(t, k.node < |s.foreign| && s.foreign[k.node] == 0)
    case WantSc(_, _) => LockSc(t)
    case InSc(_, _) => RunSc(t, os)
    case WantBin(_, _) => LockBin(t)
    case InBin(_, _) => RunBin(t)
    case Subtract(_, _, _, _) => FetchSub(t)
    case _ => StampBlock(t)
  }

  lemma NextIsEnabled(g: Config, s: Sys, t: nat, k: Key, os: Option<Addr>)
    requires s in Good(g) && WfConfig(g) && t < |s.threads| && Allocating(s.threads[t].pc, k) && AloneOn(s, t, k)
    requires FreshRegion(s, os)
    ensures Enabled(g, s, NextAction(s, t, os)) && ExactHint(s, NextAction(s, t, os))
  {
    ThreadFacts(g, s, t);
    KeyFacts(g, s, k);
    assert HeldByInsider(s, k);
  }

  /** Class k's mutexes stay free of other threads. */
  lemma NextLocks(g: Config, s: Sys, t: nat, k: Key, os: Option<Addr>)
    requires WfConfig(g) && t < |s.threads| && Allocating(s.threads[t].pc, k) && AloneOn(s, t, k)
    requires Enabled(g, s, NextAction(s, t, os))
    ensures AloneOn(Apply(g, s, NextAction(s, t, os)), t, k)
  {
    var pc := s.threads[t].pc;
    if pc.InSc? { NextLocksUnderLock(g, s, t, k, os); }
  }

  lemma NextLocksUnderLock(g: Config, s: Sys, t: nat, k: Key, os: Option<Addr>)
    requires WfConfig(g) && Enabled(g, s, RunSc(t, os)) && Allocating(s.threads[t].pc, k) && AloneOn(s, t, k)
    ensures AloneOn(Apply(g, s, RunSc(t, os)), t, k)
  {
    var c, size := s.cls[k].sc, SizeOf(g, k);
    match s.threads[t].pc.op
    case Plain => if Capacity(size) > 0 { TakeLeavesAlone(g, s, t, k, Allocate(c, size, os), Idle); }
    case Grow => if Capacity(size) > 0 { TakeLeavesAlone(g, s, t, k, Allocate(c, size, os), Idle); }
    case Probe1 => TakeLeavesAlone(g, s, t, k, AllocateExisting(c), WantBin(k, Drain));
    case Probe2 => TakeLeavesAlone(g, s, t, k, AllocateExisting(c), WantSc(k, ScOp.Grow));
    case FreeMany(batch, cont) =>
  }

  lemma TakeLeavesAlone(g: Config, s: Sys, t: nat, k: Key, r: Taken, otherwise: Pc)
    requires t < |s.threads| && s.threads[t].pc.InSc? && s.threads[t].pc.key == k && AloneOn(s, t, k)
    ensures AloneOn(TakeBlock(g, s, t, r, otherwise), t, k)
    ensures r.block == NULL ==> TakeBlock(g, s, t, r, otherwise).cls[k].sc == s.cls[k].sc
  {
  }

  /** Until the thread has its block it maps nothing, so a region that was fresh stays fresh. */
  lemma NextKeepsFresh(g: Config, s: Sys, t: nat, k: Key, os: Option<Addr>, a: Action, s1: Sys)
    requires s in Good(g) && WfConfig(g) && t < |s.threads| && Allocating(s.threads[t].pc, k) && !s.threads[t].pc.Stamp?
    requires a == NextAction(s, t, os) && FreshRegion(s, os) && Enabled(g, s, a) && s1 == Apply(g, s, a)
    requires t < |s1.threads| && !s1.threads[t].pc.Stamp?
    ensures FreshRegion(s1, os)
  {
    StepKeeps(g, s, a);
    forall j, p | InSystem(s1, j, p) ensures InSystem(s, j, p) {
      SameKeys(g, s, s1, j);
      if !a.RunSc? { SlabsChangeOnlyUnderLock(g, s, a, j); } else { NoNewSlabYet(g, s, t, k, os, j, p); }
    }
  }

  lemma SameKeys(g: Config, s: Sys, s1: Sys, j: Key)
    requires s in Good(g) && s1 in Good(g)
    ensures j in s.cls <==> j in s1.cls
  {
  }

  lemma NoNewSlabYet(g: Config, s: Sys, t: nat, k: Key, os: Option<Addr>, j: Key, p: Addr)
    requires s in Good(g) && WfConfig(g) && Enabled(g, s, RunSc(t, os)) && Allocating(s.threads[t].pc, k)
    requires t < |Apply(g, s, RunSc(t, os)).threads| && !Apply(g, s, RunSc(t, os)).threads[t].pc.Stamp?
    requires InSystem(Apply(g, s, RunSc(t, os)), j, p)
    ensures InSystem(s, j, p)
  {
    var op := s.threads[t].pc.op;
    if op.FreeMany? {
      var sc := FreeResultSlabs(g, s, t, os, k, op);
      FreeBatchProperties(s.cls[k].sc, SizeOf(g, k), Owners(s), OpBlocks(op));
    } else {
      KeyFacts(g, s, k);
      FoundNothing(g, s, t, k, os, j, p);
    }
  }

  lemma FoundNothing(g: Config, s: Sys, t: nat, k: Key, os: Option<Addr>, j: Key, p: Addr)
    requires WfConfig(g) && Enabled(g, s, RunSc(t, os)) && Allocating(s.threads[t].pc, k) && !s.threads[t].pc.op.FreeMany?
    requires Capacity(SizeOf(g, k)) > 0
    requires t < |Apply(g, s, RunSc(t, os)).threads| && !Apply(g, s, RunSc(t, os)).threads[t].pc.Stamp?
    requires InSystem(Apply(g, s, RunSc(t, os)), j, p)
    ensures InSystem(s, j, p)
  {
    var c, size := s.cls[k].sc, SizeOf(g, k);
    match s.threads[t].pc.op
    case Plain => NothingTaken(g, s, t, k, Allocate(c, size, os), Idle, j, p);
    case Grow => NothingTaken(g, s, t, k, Allocate(c, size, os), Idle, j, p);
    case Probe1 => NothingTaken(g, s, t, k, AllocateExisting(c), WantBin(k, Drain), j, p);
    case Probe2 => NothingTaken(g, s, t, k, AllocateExisting(c), WantSc(k, ScOp.Grow), j, p);
  }

  lemma NothingTaken(g: Config, s: Sys, t: nat, k: Key, r: Taken, otherwise: Pc, j: Key, p: Addr)
    requires t < |s.threads| && s.threads[t].pc.InSc? && s.threads[t].pc.key == k && k in s.cls
    requires t < |TakeBlock(g, s, t, r, otherwise).threads| && !TakeBlock(g, s, t, r, otherwise).threads[t].pc.Stamp?
    requires InSystem(TakeBlock(g, s, t, r, otherwise), j, p)
    ensures InSystem(s, j, p)
  {
  }

  /** The live set after the thread got a block of class k. */
  ghost predicate GotBlock(g: Config, s: Sys, s': Sys, k: Key)
  {
    exists b :: b !in s.live && s'.live == s.live + {b} && HdrOf(s', b).node == k.node && HdrOf(s', b).size == SizeOf(g, k)
  }

  lemma StampGetsBlock(g: Config, s: Sys, t: nat, k: Key)
    requires s in Good(g) && WfConfig(g) && Enabled(g, s, StampBlock(t)) && s.threads[t].pc.key == k
    ensures GotBlock(g, s, Apply(g, s, StampBlock(t)), k)
  {
    LiveChanges(g, s, StampBlock(t));
    var b := s.threads[t].pc.block;
    assert b !in s.live && Apply(g, s, StampBlock(t)).live == s.live + {b};
  }

  /** One step on the way: still on class k, alone, with the OS's region fresh, nothing live changed. */
  lemma NextStep(g: Config, s: Sys, t: nat, k: Key, os: Option<Addr>)
    requires s in Good(g) && WfConfig(g) && t < |s.threads| && Allocating(s.threads[t].pc, k) && !s.threads[t].pc.Stamp?
    requires AloneOn(s, t, k) && os.Some? && FreshRegion(s, os)
    ensures Enabled(g, s, NextAction(s, t, os)) && ExactHint(s, NextAction(s, t, os))
    ensures var s1 := Apply(g, s, NextAction(s, t, os));
      && s1 in Good(g) && t < |s1.threads| && Allocating(s1.threads[t].pc, k) && AloneOn(s1, t, k)
      && s1.live == s.live && Closer(s.threads[t], s1.threads[t])
      && (!s1.threads[t].pc.Stamp? ==> FreshRegion(s1, os))
  {
    var a := NextAction(s, t, os);
    NextIsEnabled(g, s, t, k, os);
    StepKeeps(g, s, a);
    StageFalls(g, s, a);
    AllocationGoesOnFromGood(g, s, a, k);
    NextLocks(g, s, t, k, os);
    LiveChanges(g, s, a);
    if !Apply(g, s, a).threads[t].pc.Stamp? { NextKeepsFresh(g, s, t, k, os, a, Apply(g, s, a)); }
  }

  /** From anywhere inside an allocation, a thread that runs alone ends with a block of its class, on whichever
      path the exact hint sent it: plain, or probe, drain, subtract, batch free, probe again, grow. */
  lemma {:induction false} ServedAlone(g: Config, s: Sys, t: nat, k: Key, os: Option<Addr>) returns (run: seq<Action>, s': Sys)
    requires s in Good(g) && WfConfig(g) && t < |s.threads| && Allocating(s.threads[t].pc, k)
    requires AloneOn(s, t, k) && os.Some? && (s.threads[t].pc.Stamp? || FreshRegion(s, os))
    ensures IsSoloRun(g, s, t, run, s') && GotBlock(g, s, s', k)
    ensures t < |s'.threads| && s'.threads[t].pc.Idle?
    decreases Blocks(s.threads[t]), Stage(s.threads[t].pc)
  {
    if s.threads[t].pc.Stamp? {
      StampGetsBlock(g, s, t, k);
      s' := Apply(g, s, StampBlock(t));
      run := [StampBlock(t)];
      SoloPush(g, s, t, StampBlock(t), [], s');
    } else {
      var a := NextAction(s, t, os);
      NextStep(g, s, t, k, os);
      var rest;
      rest, s' := ServedAlone(g, Apply(g, s, a), t, k, os);
      run := [a] + rest;
      SoloPush(g, s, t, a, rest, s');
    }
  }

  lemma SoloPush(g: Config, s: Sys, t: nat, a: Action, rest: seq<Action>, s': Sys)
    requires WfConfig(g) && a.t == t && ExactHint(s, a) && Enabled(g, s, a) && IsSoloRun(g, Apply(g, s, a), t, rest, s')
    ensures IsSoloRun(g, s, t, [a] + rest, s')
  {
    assert ([a] + rest)[1..] == rest;
  }

  /** Thread t, idle with its cache on node k.node, misses its cache for class k. */
  ghost predicate ReadyToMiss(g: Config, s: Sys, t: nat, k: Key)
  {
    && t < |s.threads| && s.threads[t].pc.Idle? && s.threads[t].cache.Cache?
    && s.threads[t].cache.node == k.node && k.cls < |g.sizes| && k.cls < |s.threads[t].cache.bins|
    && !(s.threads[t].cache.use && s.threads[t].cache.bins[k.cls].list != [])
  }

  /** A cache miss whose class no other thread has locked is served by the thread's own steps, with the hint
      it really reads, as long as the OS would map a slab. */
  lemma UncontendedMissIsServed(g: Config, s: Sys, t: nat, k: Key, os: Option<Addr>) returns (run: seq<Action>, s': Sys)
    requires Reachable(g, s) && ReadyToMiss(g, s, t, k) && AloneOn(s, t, k) && os.Some? && FreshRegion(s, os)
    ensures run != [] && run[0] == Malloc(t, k.cls)
    ensures IsSoloRun(g, s, t, run, s') && IsRun(g, s, run, s') && GotBlock(g, s, s', k)
  {
    ReachableIsGood(g, s);
    var a := Malloc(t, k.cls);
    MissEnters(g, s, t, k, os);
    StepKeeps(g, s, a);
    var rest;
    rest, s' := ServedAlone(g, Apply(g, s, a), t, k, os);
    run := [a] + rest;
    SoloPush(g, s, t, a, rest, s');
    SoloRunIsRun(g, s, t, run, s');
  }

  lemma MissEnters(g: Config, s: Sys, t: nat, k: Key, os: Option<Addr>)
    requires WfConfig(g) && ReadyToMiss(g, s, t, k) && AloneOn(s, t, k) && FreshRegion(s, os)
    ensures Enabled(g, s, Malloc(t, k.cls))
    ensures var s1 := Apply(g, s, Malloc(t, k.cls));
      && t < |s1.threads| && s1.threads[t].pc == Hint(k) && s1.live == s.live && AloneOn(s1, t, k) && FreshRegion(s1, os)
  {
    var s1 := Apply(g, s, Malloc(t, k.cls));
    assert s1 == SetPc(s, t, Hint(k));
    forall j, p | InSystem(s1, j, p) ensures InSystem(s, j, p) {}
  }
}
