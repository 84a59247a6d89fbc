/** What each branching step of the step system leads to, in the table's own terms: where a freed block goes, what an
    enqueue leaves of its bin, and which way an allocation goes on. */
module ProtocolOutcomes {
  import opened Arithmetic
  import opened Lists
  import opened Layout
  import opened SizeClassSpec
  import opened ForeignSpec
  import opened Protocol
  import opened ProtocolInvariant
  import opened ProtocolSteps
  import opened ProtocolTransfers
  import opened ProtocolClasses
  import opened ProtocolTheorems
  import opened ProtocolProgress
  import T = SizeClassTable

  /** The class of a live block is the one table entry that its header's size names. */
  lemma LiveClass(g: Config, s: Sys, b: Addr, c: nat)
    requires s in Good(g) && WfConfig(g) && b in s.live && c < |g.sizes| && g.sizes[c] == HdrOf(s, b).size
    ensures b in s.hdr && s.hdr[b].node < g.nodes && T.ClassIndex(g.table, HdrOf(s, b).size) == T.Index(c)
  {
    var k := LiveBlock(g, s, b);
    SizesRoute(g, Key(0, c));
  }

  /** A freed block goes in front of its class's bin of the thread's cache exactly when the cache is on, the block is of
      its node and the bin's cap leaves room. Every other block is on its way to the node its header names: through that
      arena's foreign bin if it is another node's, else straight to its size class. */
  lemma FreeOutcome(g: Config, s: Sys, t: nat, b: Addr, c: nat)
    requires s in Good(g) && WfConfig(g) && Enabled(g, s, Free(t, b)) && c < |g.sizes| && g.sizes[c] == HdrOf(s, b).size
    ensures t < |Apply(g, s, Free(t, b)).threads| && s.threads[t].cache.Cache? && c < |s.threads[t].cache.bins|
    ensures Apply(g, s, Free(t, b)).live == s.live - {b} && Apply(g, s, Free(t, b)).cls == s.cls
    ensures var cache, size, node, now := s.threads[t].cache, g.sizes[c], HdrOf(s, b).node, Apply(g, s, Free(t, b)).threads[t];
      if cache.use && node == cache.node && cache.bins[c].bytes + size <= T.MaxCachedBytes(g.table, size)
      then now == Thread(Idle, cache.(bins := cache.bins[c := CacheBin([b] + cache.bins[c].list, cache.bins[c].bytes + size)]))
      else now == Thread(if node != cache.node && g.nodes > 1 then WantBin(Key(node, c), Enqueue(b, Done)) else WantSc(Key(node, c), FreeOne(b, Done)), cache)
  {
    ThreadFacts(g, s, t);
    LiveClass(g, s, b, c);
  }

  /** An empty cache on that node with that flag. */
  ghost predicate IsNewCache(g: Config, cache: Cache, node: nat, use: bool)
  {
    cache.Cache? && cache.node == node && cache.use == use && |cache.bins| == |g.sizes|
    && forall c | 0 <= c < |cache.bins| :: cache.bins[c] == CacheBin([], 0)
  }

  /** A thread's first configure gives it an empty cache; one on the same node changes the flag and keeps what is cached;
      one on another node keeps the cache until it is flushed, with an empty one on that node to follow. */
  lemma ConfigureOutcome(g: Config, s: Sys, a: Action)
    requires WfConfig(g) && Enabled(g, s, a) && (a.Attach? || a.Toggle? || a.Migrate?)
    ensures a.t < |Apply(g, s, a).threads|
    ensures var th, now := s.threads[a.t], Apply(g, s, a).threads[a.t];
      && (a.Attach? ==> now.pc.Idle? && IsNewCache(g, now.cache, a.node, a.use))
      && (a.Toggle? ==> now.pc.Idle? && th.cache.Cache? && now.cache == th.cache.(use := a.use))
      && (a.Migrate? ==> now.cache == th.cache && now.pc.Flush? && IsNewCache(g, now.pc.next, a.node, a.use))
  {
  }

  /** A turn of a flush takes the block cached last from the earliest bin that has one, and sends it straight to its size
      class on the cache's own node, never through a foreign bin; with every bin empty the next cache takes over. */
  lemma FlushOutcome(g: Config, s: Sys, t: nat, c: nat)
    requires s in Good(g) && WfConfig(g) && Enabled(g, s, FlushNext(t)) && c <= |s.threads[t].cache.bins|
    requires (c < |s.threads[t].cache.bins| ==> s.threads[t].cache.bins[c].list != []) && forall i | 0 <= i < c :: s.threads[t].cache.bins[i].list == []
    ensures t < |Apply(g, s, FlushNext(t)).threads| && Apply(g, s, FlushNext(t)).live == s.live && Apply(g, s, FlushNext(t)).cls == s.cls
    ensures var cache, next, now := s.threads[t].cache, s.threads[t].pc.next, Apply(g, s, FlushNext(t)).threads[t];
      if c == |cache.bins| then now == Thread(Idle, next)
      else
        var list := cache.bins[c].list;
        && c < |g.sizes| && now.pc == WantSc(Key(cache.node, c), FreeOne(list[0], Flushing(next)))
        && now.cache == cache.(bins := cache.bins[c := CacheBin(list[1..], cache.bins[c].bytes - g.sizes[c])])
  {
    ThreadFacts(g, s, t);
    var cache := s.threads[t].cache;
    assert FirstNonEmpty(cache.bins, 0) == c;
    if c < |cache.bins| {
      var k, b := Key(cache.node, c), cache.bins[c].list[0];
      assert CacheBinOk(g, k, cache.bins[c]) && b in Holds(s, InCache(t, c));
      assert HomeOk(g, s, b, InCache(t, c));
      SizesRoute(g, k);
    }
  }

  /** An enqueued block goes in front of its bin, with its class's size. */
  lemma EnqueueOutcome(g: Config, s: Sys, t: nat)
    requires s in Good(g) && WfConfig(g) && Enabled(g, s, RunBin(t)) && s.threads[t].pc.bop.Enqueue?
    ensures var k := s.threads[t].pc.key; k in s.cls && k in Apply(g, s, RunBin(t)).cls && t < |Apply(g, s, RunBin(t)).threads|
    ensures var k, op := s.threads[t].pc.key, s.threads[t].pc.bop;
      var was, now := s.cls[k].bin, Apply(g, s, RunBin(t)).cls[k].bin;
      && now.list == [op.block] + was.list && now.bytes == was.bytes + SizeOf(g, k) && now.enqueued == was.enqueued + 1
      && Apply(g, s, RunBin(t)).threads[t].pc == Pushed(k, op.cont)
  {
    var k, b := s.threads[t].pc.key, s.threads[t].pc.bop.block;
    KeyFacts(g, s, k);
    HandFacts(g, s, t, b);
  }

  /** A bin that has just grown keeps its list while its bytes fit under the class's cap. Past the cap it gives up a head
      prefix: at least one block, and no more than it takes to reach half the cap. Either way the bin's lock is released. */
  lemma SettleOutcome(g: Config, s: Sys, t: nat)
    requires s in Good(g) && WfConfig(g) && Enabled(g, s, Settle(t))
    ensures var k := s.threads[t].pc.key; k in s.cls && k in Apply(g, s, Settle(t)).cls && t < |Apply(g, s, Settle(t)).threads|
    ensures var k, cont := s.threads[t].pc.key, s.threads[t].pc.cont;
      var size, cap, list := SizeOf(g, k), T.MaxCachedBytes(g.table, SizeOf(g, k)), s.cls[k].bin.list;
      var now, pc := Apply(g, s, Settle(t)).cls[k], Apply(g, s, Settle(t)).threads[t].pc;
      && now.binLock == None && now.sc == s.cls[k].sc
      && if |list| * size <= cap then now.bin == s.cls[k].bin && pc == Resume(k, cont)
         else
           var n := |list| - |now.bin.list|;
           && 0 < n <= |list| && now.bin.list == list[n..] && now.bin.bytes == |now.bin.list| * size
           && cap / 2 - size < now.bin.bytes <= cap / 2
           && pc == Subtract(k, Reverse(list[..n]), n * size, cont)
  {
    var k := s.threads[t].pc.key;
    KeyFacts(g, s, k);
    ThreadFacts(g, s, t);
    SizesRoute(g, k);
    DetachedBytes(|s.cls[k].bin.list|, SizeOf(g, k), Low(g, k));
  }

  lemma DetachedBytes(count: nat, size: nat, low: nat)
    requires size > 0
    ensures var n := DetachCount(count, count * size, size, low);
      && n <= count && (count - n) * size == count * size - n * size && (n > 0 ==> n * size > 0)
      && (count * size > low ==> n > 0 && low - size < (count - n) * size <= low)
  {
    DetachCountTight(count, count * size, size, low);
    var n := DetachCount(count, count * size, size, low);
    if n > 0 { MulMono(1, n, size); }
  }

  /** After a miss: with one node, or a hint of zero, the thread goes for its class alone; else it probes the class first. */
  lemma HintOutcome(g: Config, s: Sys, t: nat, zero: bool)
    requires WfConfig(g) && Enabled(g, s, ReadHint(t, zero))
    ensures Apply(g, s, ReadHint(t, zero)).threads[t].pc
              == WantSc(s.threads[t].pc.key, if g.nodes > 1 && !zero then Probe1 else Plain)
  {
  }

  /** A probe of a class with every slab full finds nothing, changes nothing, and leads to the bin the first time and to a
      new slab the second. Any search of a class that has a free block ends with one of its blocks, no slab mapped. */
  lemma ProbeOutcome(g: Config, s: Sys, t: nat, os: Option<Addr>)
    requires s in Good(g) && WfConfig(g) && Enabled(g, s, RunSc(t, os))
    requires s.threads[t].pc.op.Probe1? || s.threads[t].pc.op.Probe2? || s.threads[t].pc.op.Plain? || s.threads[t].pc.op.Grow?
    ensures var k := s.threads[t].pc.key; k in s.cls && k in Apply(g, s, RunSc(t, os)).cls && t < |Apply(g, s, RunSc(t, os)).threads|
    ensures var k, op := s.threads[t].pc.key, s.threads[t].pc.op;
      var now, pc := Apply(g, s, RunSc(t, os)).cls[k], Apply(g, s, RunSc(t, os)).threads[t].pc;
      && now.scLock == None
      && (Exhausted(s.cls[k].sc) && op.Probe1? ==> pc == WantBin(k, Drain) && now.sc == s.cls[k].sc)
      && (Exhausted(s.cls[k].sc) && op.Probe2? ==> pc == WantSc(k, Grow) && now.sc == s.cls[k].sc)
      && (Exhausted(s.cls[k].sc) && !op.Probe1? && !op.Probe2? ==> if os.None? then pc == Idle && now.sc == s.cls[k].sc
            else pc.Stamp? && pc.key == k && IsBlock(os.value, SizeOf(g, k), pc.block) && now.sc.slabs == s.cls[k].sc.slabs + [os.value])
      && (!Exhausted(s.cls[k].sc) ==>
            pc.Stamp? && pc.key == k && pc.block in FreeSet(s.cls[k].sc) && FreeSet(now.sc) == FreeSet(s.cls[k].sc) - {pc.block}
            && now.sc.slabs == s.cls[k].sc.slabs)
  {
    var k := s.threads[t].pc.key;
    KeyFacts(g, s, k);
    FreshForClass(s, k, os);
    AllocateExistingProperties(s.cls[k].sc, SizeOf(g, k));
    AllocateProperties(s.cls[k].sc, SizeOf(g, k), os);
  }

  /** The drain of an allocation takes all of the bin's blocks, with their bytes, and leads to the second probe. */
  lemma DrainOutcome(g: Config, s: Sys, t: nat)
    requires s in Good(g) && WfConfig(g) && Enabled(g, s, RunBin(t)) && s.threads[t].pc.bop.Drain?
    ensures var k := s.threads[t].pc.key; k in s.cls && k in Apply(g, s, RunBin(t)).cls && t < |Apply(g, s, RunBin(t)).threads|
    ensures var k := s.threads[t].pc.key;
      var list, now, pc := s.cls[k].bin.list, Apply(g, s, RunBin(t)).cls[k], Apply(g, s, RunBin(t)).threads[t].pc;
      && now.bin.list == [] && now.bin.bytes == 0 && now.binLock == None
      && pc == if list == [] then WantSc(k, Probe2) else Subtract(k, list, |list| * SizeOf(g, k), Retry)
  {
    var k := s.threads[t].pc.key;
    KeyFacts(g, s, k);
    SizesRoute(g, k);
    if s.cls[k].bin.list != [] { MulMono(1, |s.cls[k].bin.list|, SizeOf(g, k)); }
  }
}
