/** The allocator as a step system: any number of threads over any number of nodes, with explicit lock
    acquisition and release, and every shared access between two lock operations a step of its own. */
module Protocol {
  import opened Lists
  import opened Layout
  import opened SizeClassSpec
  import opened ForeignSpec
  import T = SizeClassTable

  /** `sizes` is kClassSizes; `threads` and `nodes` are arbitrary. */
  datatype Config = Config(table: T.Config, sizes: seq<nat>, nodes: nat, threads: nat)

  ghost predicate WfConfig(g: Config)
  {
    && T.Wf(g.table)
    && g.sizes == T.ClassSizes(g.table)
    && (forall i | 0 <= i < |g.sizes| :: Capacity(g.sizes[i]) > 0)
  }

  /** One size class of one node's arena. */
  datatype Key = Key(node: nat, cls: nat)

  predicate IsKey(g: Config, k: Key)
  {
    k.node < g.nodes && k.cls < |g.sizes|
  }

  function SizeOf(g: Config, k: Key): nat
  {
    if k.cls < |g.sizes| then g.sizes[k.cls] else 0
  }

  function High(g: Config, k: Key): nat { T.MaxCachedBytes(g.table, SizeOf(g, k)) }
  function Low(g: Config, k: Key): nat { T.LowWatermark(g.table, SizeOf(g, k)) }

  /** The header fields the allocator routes by: node_id, size_class and raw_ptr. */
  datatype Header = Header(node: nat, size: nat, slab: Addr)

  /** A ForeignBin; `enqueued` and `overflows` count its pushes and overflow drains so far. */
  datatype Bin = Bin(list: seq<Addr>, bytes: int, enqueued: nat, overflows: nat)

  /** A size class with its mutex, its foreign bin with its mutex, and the most blocks ever in use at once. */
  datatype KeyState = KeyState(sc: ClassState, scLock: Option<nat>, bin: Bin, binLock: Option<nat>, peak: int)

  datatype CacheBin = CacheBin(list: seq<Addr>, bytes: int)
  datatype Cache = NoCache | Cache(node: nat, use: bool, bins: seq<CacheBin>)

  /** What a thread does after a free: return, retry its allocation, or go on flushing its old cache. */
  datatype Cont = Done | Retry | Flushing(next: Cache)

  datatype ScOp = Plain | Probe1 | Probe2 | Grow | FreeOne(block: Addr, cont: Cont) | FreeMany(batch: seq<Addr>, cont: Cont)
  datatype BinOp = Enqueue(block: Addr, cont: Cont) | Drain

  datatype Pc =
    | Idle
    | Hint(key: Key)                 // about to read foreign_bytes_
    | WantSc(key: Key, op: ScOp)     // blocked on or about to lock the size class
    | InSc(key: Key, op: ScOp)
    | Stamp(key: Key, block: Addr)   // has a block, has not written its node and class yet
    | WantBin(key: Key, bop: BinOp)
    | InBin(key: Key, bop: BinOp)
    | Pushed(key: Key, cont: Cont)   // linked the block, has not added to foreign_bytes_
    | Added(key: Key, cont: Cont)    // added to foreign_bytes_, still holds the bin
    | Subtract(key: Key, batch: seq<Addr>, bytes: int, cont: Cont)  // detached, has not subtracted
    | Flush(next: Cache)
    | Faulted                        // an exception for an invalid header, an unmapped slab, or a counter underflow

  datatype Thread = Thread(pc: Pc, cache: Cache)

  /** Where a block is. */
  datatype Place = Live | OnFreeList(key: Key) | InCache(thread: nat, cls: nat) | InForeignBin(key: Key) | InHand(thread: nat)

  /** `place` is a history variable: no step reads it. */
  datatype Sys = Sys(
    cls: map<Key, KeyState>,
    foreign: seq<int>,
    hdr: map<Addr, Header>,
    live: set<Addr>,
    threads: seq<Thread>,
    place: map<Addr, Place>)

  datatype Action =
    | Attach(t: nat, node: nat, use: bool)
    | Toggle(t: nat, use: bool)
    | Migrate(t: nat, node: nat, use: bool)
    | Exit(t: nat)
    | FlushNext(t: nat)
    | Malloc(t: nat, c: nat)
    | ReadHint(t: nat, zero: bool)
    | LockSc(t: nat)
    | RunSc(t: nat, os: Option<Addr>)
    | StampBlock(t: nat)
    | Free(t: nat, block: Addr)
    | LockBin(t: nat)
    | RunBin(t: nat)
    | FetchAdd(t: nat)
    | Settle(t: nat)
    | FetchSub(t: nat)

  // ---- small helpers ----

  function EmptyBins(g: Config): seq<CacheBin>
  {
    seq(|g.sizes|, _ => CacheBin([], 0))
  }

  function NewCache(g: Config, node: nat, use: bool): Cache
  {
    Cache(node, use, EmptyBins(g))
  }

  function PcOf(s: Sys, t: nat): Pc
  {
    if t < |s.threads| then s.threads[t].pc else Faulted
  }

  function CacheOf(s: Sys, t: nat): Cache
  {
    if t < |s.threads| then s.threads[t].cache else NoCache
  }

  function HdrOf(s: Sys, b: Addr): Header
  {
    if b in s.hdr then s.hdr[b] else Header(0, 0, 0)
  }

  function SetPc(s: Sys, t: nat, pc: Pc): Sys
    requires t < |s.threads|
  {
    s.(threads := s.threads[t := s.threads[t].(pc := pc)])
  }

  function SetKey(s: Sys, k: Key, ks: KeyState): Sys
  {
    s.(cls := s.cls[k := ks])
  }

  function MoveTo(place: map<Addr, Place>, blocks: set<Addr>, p: Place): map<Addr, Place>
  {
    map b | b in place.Keys + blocks :: if b in blocks then p else place[b]
  }

  /** Blocks a thread has in hand between two containers. */
  function HandOf(pc: Pc): seq<Addr>
  {
    match pc
    case WantSc(_, op) => OpBlocks(op)
    case InSc(_, op) => OpBlocks(op)
    case Stamp(_, b) => [b]
    case WantBin(_, op) => if op.Enqueue? then [op.block] else []
    case InBin(_, op) => if op.Enqueue? then [op.block] else []
    case Subtract(_, batch, _, _) => batch
    case _ => []
  }

  function OpBlocks(op: ScOp): seq<Addr>
  {
    match op
    case FreeOne(b, _) => [b]
    case FreeMany(batch, _) => batch
    case _ => []
  }

  function ScHeld(pc: Pc): Option<Key>
  {
    if pc.InSc? then Some(pc.key) else None
  }

  function BinHeld(pc: Pc): Option<Key>
  {
    if pc.InBin? || pc.Pushed? || pc.Added? then Some(pc.key) else None
  }

  /** The pc after a free whose continuation is `cont`. */
  function Resume(k: Key, cont: Cont): Pc
  {
    match cont
    case Done => Idle
    case Retry => WantSc(k, Probe2)
    case Flushing(next) => Flush(next)
  }

  /** NumaArena::deallocate on the arena of `arena`: by the block's own header, to the arena and size class
      it names. Invalid headers raise. */
  function Route(g: Config, arena: nat, h: Header, b: Addr, cont: Cont): Pc
    requires T.Wf(g.table)
  {
    match T.ClassIndex(g.table, h.size)
    case OutOfRange => Faulted
    case Index(c) =>
      if c >= |g.sizes| || g.sizes[c] != h.size || h.node >= g.nodes then Faulted
      else if h.node != arena && g.nodes > 1 then WantBin(Key(h.node, c), Enqueue(b, cont))
      else WantSc(Key(h.node, c), FreeOne(b, cont))
  }

  /** After a detach: subtract from foreign_bytes_ first, unless nothing was detached. */
  function AfterDetach(k: Key, batch: seq<Addr>, bytes: int, cont: Cont): Pc
  {
    if bytes != 0 then Subtract(k, batch, bytes, cont) else AfterSub(k, batch, cont)
  }

  function AfterSub(k: Key, batch: seq<Addr>, cont: Cont): Pc
  {
    if batch == [] then Resume(k, cont) else WantSc(k, FreeMany(batch, cont))
  }

  function FirstNonEmpty(bins: seq<CacheBin>, i: nat): (r: nat)
    requires i <= |bins|
    ensures i <= r <= |bins|
    ensures r < |bins| ==> bins[r].list != []
    ensures forall j | i <= j < r :: bins[j].list == []
    decreases |bins| - i
  {
    if i == |bins| || bins[i].list != [] then i else FirstNonEmpty(bins, i + 1)
  }

  ghost predicate InSystem(s: Sys, k: Key, p: Addr)
  {
    k in s.cls && p in s.cls[k].sc.slabs
  }

  /** A region the OS may hand out: it overlaps no mapped slab. */
  ghost predicate FreshRegion(s: Sys, os: Option<Addr>)
  {
    os.Some? ==> IsBase(os.value) && forall k, p | InSystem(s, k, p) :: Apart(p, os.value)
  }

  // ---- steps ----

  ghost predicate Enabled(g: Config, s: Sys, a: Action)
  {
    && a.t < |s.threads|
    && var pc := s.threads[a.t].pc;
       var cache := s.threads[a.t].cache;
       match a
       case Attach(_, node, _) => pc.Idle? && cache.NoCache? && node < g.nodes
       case Toggle(_, _) => pc.Idle? && cache.Cache?
       case Migrate(_, node, _) => pc.Idle? && cache.Cache? && node < g.nodes && node != cache.node
       case Exit(_) => pc.Idle? && cache.Cache?
       case FlushNext(_) => pc.Flush? && cache.Cache?
       case Malloc(_, c) => pc.Idle? && cache.Cache? && c < |g.sizes| && c < |cache.bins|
       case ReadHint(_, _) => pc.Hint?
       case LockSc(_) => pc.WantSc? && pc.key in s.cls && s.cls[pc.key].scLock == None
       case RunSc(_, os) => pc.InSc? && pc.key in s.cls && FreshRegion(s, os)
       case StampBlock(_) => pc.Stamp?
       case Free(_, b) => pc.Idle? && cache.Cache? && b in s.live
       case LockBin(_) => pc.WantBin? && pc.key in s.cls && s.cls[pc.key].binLock == None
       case RunBin(_) => pc.InBin? && pc.key in s.cls
       case FetchAdd(_) => pc.Pushed? && pc.key.node < |s.foreign|
       case Settle(_) => pc.Added? && pc.key in s.cls
       case FetchSub(_) => pc.Subtract? && pc.key.node < |s.foreign|
  }

  ghost function Apply(g: Config, s: Sys, a: Action): Sys
    requires WfConfig(g) && Enabled(g, s, a)
  {
    match a
    case Attach(t, node, use) => s.(threads := s.threads[t := Thread(Idle, NewCache(g, node, use))])
    case Toggle(t, use) => s.(threads := s.threads[t := Thread(Idle, s.threads[t].cache.(use := use))])
    case Migrate(t, node, use) => SetPc(s, t, Flush(NewCache(g, node, use)))
    case Exit(t) => SetPc(s, t, Flush(NoCache))
    case FlushNext(t) => DoFlushNext(g, s, t)
    case Malloc(t, c) => DoMalloc(g, s, t, c)
    case ReadHint(t, zero) =>
      var k := s.threads[t].pc.key;
      SetPc(s, t, WantSc(k, if g.nodes <= 1 || zero then Plain else Probe1))
    case LockSc(t) =>
      var pc := s.threads[t].pc;
      SetKey(SetPc(s, t, InSc(pc.key, pc.op)), pc.key, s.cls[pc.key].(scLock := Some(t)))
    case RunSc(t, os) => DoRunSc(g, s, t, os)
    case StampBlock(t) => DoStamp(g, s, t)
    case Free(t, b) => DoFree(g, s, t, b)
    case LockBin(t) =>
      var pc := s.threads[t].pc;
      SetKey(SetPc(s, t, InBin(pc.key, pc.bop)), pc.key, s.cls[pc.key].(binLock := Some(t)))
    case RunBin(t) => DoRunBin(g, s, t)
    case FetchAdd(t) =>
      var pc := s.threads[t].pc;
      SetPc(s, t, Added(pc.key, pc.cont))
        .(foreign := s.foreign[pc.key.node := s.foreign[pc.key.node] + SizeOf(g, pc.key)])
    case Settle(t) => DoSettle(g, s, t)
    case FetchSub(t) =>
      var pc := s.threads[t].pc;
      if s.foreign[pc.key.node] < pc.bytes then SetPc(s, t, Faulted)
      else
        SetPc(s, t, AfterSub(pc.key, pc.batch, pc.cont))
          .(foreign := s.foreign[pc.key.node := s.foreign[pc.key.node] - pc.bytes])
  }

  /** One turn of ThreadLocalCache::flush; when all bins are empty the replacement cache takes over. */
  ghost function DoFlushNext(g: Config, s: Sys, t: nat): Sys
    requires WfConfig(g) && Enabled(g, s, FlushNext(t))
  {
    var cache := s.threads[t].cache;
    var next := s.threads[t].pc.next;
    var i := FirstNonEmpty(cache.bins, 0);
    if i == |cache.bins| then s.(threads := s.threads[t := Thread(Idle, next)])
    else
      var bin := cache.bins[i];
      var b := bin.list[0];
      var h := HdrOf(s, b);
      var cache' := cache.(bins := cache.bins[i := CacheBin(bin.list[1..], bin.bytes - h.size)]);
      s.(threads := s.threads[t := Thread(Route(g, cache.node, h, b, Flushing(next)), cache')],
         place := MoveTo(s.place, {b}, InHand(t)))
  }

  /** ThreadLocalCache::allocate for a small class: a cache hit is immediate, a miss goes to the arena. */
  ghost function DoMalloc(g: Config, s: Sys, t: nat, c: nat): Sys
    requires Enabled(g, s, Malloc(t, c))
  {
    var cache := s.threads[t].cache;
    if cache.use && cache.bins[c].list != [] then
      var bin := cache.bins[c];
      var b := bin.list[0];
      var cache' := cache.(bins := cache.bins[c := CacheBin(bin.list[1..], bin.bytes - HdrOf(s, b).size)]);
      s.(threads := s.threads[t := Thread(Idle, cache')], live := s.live + {b}, place := MoveTo(s.place, {b}, Live))
    else SetPc(s, t, Hint(Key(cache.node, c)))
  }

  /** ThreadLocalCache::deallocate: keep a local block if it fits under the cap, else route it by its header. */
  ghost function DoFree(g: Config, s: Sys, t: nat, b: Addr): Sys
    requires WfConfig(g) && Enabled(g, s, Free(t, b))
  {
    var cache := s.threads[t].cache;
    var h := HdrOf(s, b);
    var away := s.(threads := s.threads[t := Thread(Route(g, cache.node, h, b, Done), cache)],
                   live := s.live - {b}, place := MoveTo(s.place, {b}, InHand(t)));
    if !cache.use || h.node != cache.node then away
    else match T.ClassIndex(g.table, h.size)
      case OutOfRange => SetPc(s, t, Faulted)
      case Index(c) =>
        if c >= |cache.bins| then SetPc(s, t, Faulted)
        else if cache.bins[c].bytes + h.size > T.MaxCachedBytes(g.table, h.size) then away
        else
          var bin := cache.bins[c];
          var cache' := cache.(bins := cache.bins[c := CacheBin([b] + bin.list, bin.bytes + h.size)]);
          s.(threads := s.threads[t := Thread(Idle, cache')],
             live := s.live - {b}, place := MoveTo(s.place, {b}, InCache(t, c)))
  }

  /** NumaArena::allocate and ThreadLocalCache::allocate write node and class; the block becomes the user's. */
  ghost function DoStamp(g: Config, s: Sys, t: nat): Sys
    requires Enabled(g, s, StampBlock(t))
  {
    var pc := s.threads[t].pc;
    var b := pc.block;
    SetPc(s, t, Idle)
      .(hdr := s.hdr[b := Header(pc.key.node, SizeOf(g, pc.key), HdrOf(s, b).slab)],
        live := s.live + {b}, place := MoveTo(s.place, {b}, Live))
  }

  ghost function Owners(s: Sys): map<Addr, Addr>
  {
    map b | b in s.hdr :: s.hdr[b].slab
  }

  ghost function Peak(g: Config, k: Key, ks: KeyState, sc: ClassState): int
  {
    var now := Outside(sc, SizeOf(g, k));
    if now > ks.peak then now else ks.peak
  }

  /** The history of places after the class's free blocks became FreeSet(sc). */
  ghost function Relabel(place: map<Addr, Place>, k: Key, sc: ClassState): map<Addr, Place>
  {
    map b | b in place.Keys + FreeSet(sc) && (b in FreeSet(sc) || place[b] != OnFreeList(k))
      :: if b in FreeSet(sc) then OnFreeList(k) else place[b]
  }

  /** The body of a size-class critical section, and its release. */
  ghost function DoRunSc(g: Config, s: Sys, t: nat, os: Option<Addr>): Sys
    requires WfConfig(g) && Enabled(g, s, RunSc(t, os))
  {
    var pc := s.threads[t].pc;
    var k := pc.key;
    match pc.op
    case Plain => if Capacity(SizeOf(g, k)) == 0 then SetPc(s, t, Faulted) else TakeBlock(g, s, t, Allocate(s.cls[k].sc, SizeOf(g, k), os), Idle)
    case Grow => if Capacity(SizeOf(g, k)) == 0 then SetPc(s, t, Faulted) else TakeBlock(g, s, t, Allocate(s.cls[k].sc, SizeOf(g, k), os), Idle)
    case Probe1 => TakeBlock(g, s, t, AllocateExisting(s.cls[k].sc), WantBin(k, Drain))
    case Probe2 => TakeBlock(g, s, t, AllocateExisting(s.cls[k].sc), WantSc(k, Grow))
    case FreeOne(b, cont) => GiveBack(g, s, t, [b], true, cont)
    case FreeMany(batch, cont) => GiveBack(g, s, t, batch, false, cont)
  }

  /** Leave the critical section with the block taken, or without one and go to `otherwise`. */
  ghost function TakeBlock(g: Config, s: Sys, t: nat, r: Taken, otherwise: Pc): Sys
    requires t < |s.threads| && s.threads[t].pc.InSc? && s.threads[t].pc.key in s.cls
  {
    var k := s.threads[t].pc.key;
    var ks := s.cls[k].(scLock := None);
    if r.block == NULL then SetKey(SetPc(s, t, otherwise), k, ks)
    else
      var h := HdrOf(s, r.block).(slab := r.slab);
      SetKey(SetPc(s, t, Stamp(k, r.block)), k, ks.(sc := r.state, peak := Peak(g, k, ks, r.state)))
        .(hdr := s.hdr[r.block := h],
          place := MoveTo(Relabel(s.place, k, r.state), {r.block}, InHand(t)))
  }

  /** Put blocks back on their slabs' free lists, each by its own raw_ptr, and leave the critical section. */
  ghost function GiveBack(g: Config, s: Sys, t: nat, blocks: seq<Addr>, single: bool, cont: Cont): Sys
    requires t < |s.threads| && s.threads[t].pc.InSc? && s.threads[t].pc.key in s.cls && (single ==> |blocks| == 1)
  {
    var k := s.threads[t].pc.key;
    var ks := s.cls[k].(scLock := None);
    var own := Owners(s);
    if exists b | b in blocks :: Owner(own, b) !in ks.sc.free then SetPc(s, t, Faulted)
    else
      var sc := if single then Deallocate(ks.sc, SizeOf(g, k), Owner(own, blocks[0]), blocks[0])
                else FreeBatch(ks.sc, SizeOf(g, k), own, blocks);
      SetKey(SetPc(s, t, Resume(k, cont)), k, ks.(sc := sc, peak := Peak(g, k, ks, sc)))
        .(place := Relabel(MoveTo(s.place, Elems(blocks), OnFreeList(k)), k, sc))
  }

  /** The body of a bin critical section up to the counter update; a full drain also releases the bin. */
  ghost function DoRunBin(g: Config, s: Sys, t: nat): Sys
    requires Enabled(g, s, RunBin(t))
  {
    var pc := s.threads[t].pc;
    var k := pc.key;
    var ks := s.cls[k];
    match pc.bop
    case Enqueue(b, cont) =>
      var bin := ks.bin.(list := [b] + ks.bin.list, bytes := ks.bin.bytes + HdrOf(s, b).size, enqueued := ks.bin.enqueued + 1);
      SetKey(SetPc(s, t, Pushed(k, cont)), k, ks.(bin := bin))
        .(place := MoveTo(s.place, {b}, InForeignBin(k)))
    case Drain =>
      SetKey(SetPc(s, t, AfterDetach(k, ks.bin.list, ks.bin.bytes, Retry)), k,
             ks.(bin := ks.bin.(list := [], bytes := 0), binLock := None))
        .(place := MoveTo(s.place, Elems(ks.bin.list), InHand(t)))
  }

  /** The overflow check at the end of enqueue_foreign_small's critical section, and the release. */
  ghost function DoSettle(g: Config, s: Sys, t: nat): Sys
    requires Enabled(g, s, Settle(t))
  {
    var pc := s.threads[t].pc;
    var k := pc.key;
    var ks := s.cls[k];
    if ks.bin.bytes > High(g, k) then
      var n := DetachCount(|ks.bin.list|, ks.bin.bytes, SizeOf(g, k), Low(g, k));
      var batch := Reverse(ks.bin.list[..n]);
      var bytes := n * SizeOf(g, k);
      SetKey(SetPc(s, t, AfterDetach(k, batch, bytes, pc.cont)), k,
             ks.(bin := ks.bin.(list := ks.bin.list[n..], bytes := ks.bin.bytes - bytes, overflows := ks.bin.overflows + 1),
                 binLock := None))
        .(place := MoveTo(s.place, Elems(batch), InHand(t)))
    else
      SetKey(SetPc(s, t, AfterDetach(k, [], 0, pc.cont)), k, ks.(binLock := None))
  }

  // ---- runs ----

  ghost function Init(g: Config): Sys
  {
    Sys(map k: Key | k in Keys(g) :: KeyState(ClassState([], NULL, map[]), None, Bin([], 0, 0, 0), None, 0),
        seq(g.nodes, _ => 0),
        map[], {}, seq(g.threads, _ => Thread(Idle, NoCache)), map[])
  }

  ghost function Keys(g: Config): set<Key>
  {
    set n: nat, c: nat | n < g.nodes && c < |g.sizes| :: Key(n, c)
  }

  ghost predicate IsRun(g: Config, s: Sys, run: seq<Action>, s': Sys)
    requires WfConfig(g)
    decreases |run|
  {
    if run == [] then s' == s
    else Enabled(g, s, run[0]) && IsRun(g, Apply(g, s, run[0]), run[1..], s')
  }
}
