/** ThreadLocalCache and its per-thread owner in front of the arenas: a cache that users cannot tell from
    plain arenas by what they hold, nor by what is in it. */
module ThreadCache {
  import opened Arithmetic
  import opened Lists
  import opened Layout
  import opened SizeClassSpec
  import opened SlabHeap
  import T = SizeClassTable

  // ---- the arenas ----

  /** Where a freed block was sent: the arena of its header's node, and there its header's size class. */
  datatype Return = Return(block: Addr, node: nat, sizeClass: nat)

  /** No payload of a block that is out has changed, nor has its header. */
  predicate OutKept(out: map<Addr, nat>, w: map<Addr, Addr>, w': map<Addr, Addr>, h: map<Addr, BlockHeader>, h': map<Addr, BlockHeader>)
  {
    forall b {:trigger out[b]} | b in out :: PayloadKept(w, w', b, out[b]) && (b in h ==> b in h' && h'[b] == h[b])
  }

  ghost predicate RangesApart(a: Addr, m: nat, b: Addr, n: nat)
  {
    a + m <= b || b + n <= a
  }

  /** Blocks that are out have room for a link, and their payloads do not overlap. */
  ghost function Spread(): iset<map<Addr, nat>>
  {
    iset out: map<Addr, nat> | AllApart(out)
  }

  ghost predicate AllApart(out: map<Addr, nat>)
  {
    && (forall b {:trigger out[b]} | b in out :: out[b] >= LINK_SIZE)
    && (forall b, c {:trigger out[b], out[c]} | b in out && c in out && b != c :: RangesApart(Link(b), out[b], Link(c), out[c]))
  }

  /** A block an arena may hand out for this request, n payload bytes long. */
  ghost predicate FreshBlock(g: T.Config, sizes: seq<nat>, out: map<Addr, nat>, size: nat, alignment: nat, b: Addr, n: nat)
    requires T.Wf(g) && sizes == T.ClassSizes(g)
  {
    NewRange(out, b, n) && n >= size && n >= ClassFor(g, sizes, size, alignment)
  }

  ghost predicate NewRange(out: map<Addr, nat>, b: Addr, n: nat)
  {
    && b != NULL && b !in out && n >= LINK_SIZE
    && forall c {:trigger out[c]} | c in out :: RangesApart(Link(b), n, Link(c), out[c])
  }

  /** The arenas as the cache sees them: the blocks that are out with their payload lengths, and memory. What an
      arena does to the payloads and headers of blocks that are not out is its own business: it links them into
      free lists, foreign bins and batches. It never touches one that is out. */
  class Arenas {
    const table: T.Config
    const sizes: seq<nat>  // kClassSizes
    var words: map<Addr, Addr>
    var headers: map<Addr, BlockHeader>
    var outstanding: map<Addr, nat>
    var returned: seq<Return>  // every free so far

    ghost predicate Fitted()
    {
      T.Wf(table) && sizes == T.ClassSizes(table)
    }

    /** Anything at all happens to memory outside the blocks that are out. */
    method Scramble()
      modifies `words, `headers
      ensures OutKept(outstanding, old(words), words, old(headers), headers)
    {
      var w: map<Addr, Addr> := *;
      var h: map<Addr, BlockHeader> := *;
      if OutKept(outstanding, words, w, headers, h) { words, headers := w, h; }
    }

    /** NumaArena::allocate on the arena of `node`: `block` is what it finds, `n` payload bytes long, or None for
        bad_alloc. */
    method Allocate(node: nat, size: nat, alignment: nat, block: Option<Addr>, n: nat) returns (ptr: Option<Addr>)
      requires Fitted() && outstanding in Spread()
      requires block.Some? ==> FreshBlock(table, sizes, outstanding, size, alignment, block.value, n)
      modifies `words, `headers, `outstanding
      ensures OutKept(old(outstanding), old(words), words, old(headers), headers) && outstanding in Spread()
      ensures block.None? ==> ptr.None? && outstanding == old(outstanding)
      ensures block.Some? ==>
        && ptr == Some(Link(block.value)) && outstanding == old(outstanding)[block.value := n] && block.value in headers
        && headers[block.value].nodeId == node && headers[block.value].sizeClass == ClassFor(table, sizes, size, alignment)
    {
      Scramble();
      if block.None? { return None; }
      headers := headers[block.value := BlockHeader(node, ClassFor(table, sizes, size, alignment), 0, NULL, 0)];
      outstanding := outstanding[block.value := n];
      ptr := Some(Link(block.value));
    }

    /** NumaArena::deallocate: the block goes back to the arena and class its header names. */
    method Deallocate(ptr: Addr)
      requires ptr >= HEADER && ptr - HEADER in outstanding && ptr - HEADER in headers && outstanding in Spread()
      modifies `words, `headers, `outstanding, `returned
      ensures outstanding == old(outstanding) - {ptr - HEADER} && outstanding in Spread()
      ensures OutKept(outstanding, old(words), words, old(headers), headers)
      ensures returned == old(returned)
        + [Return(ptr - HEADER, old(headers)[ptr - HEADER].nodeId, old(headers)[ptr - HEADER].sizeClass)]
    {
      returned := returned + [Return(ptr - HEADER, headers[ptr - HEADER].nodeId, headers[ptr - HEADER].sizeClass)];
      outstanding := outstanding - {ptr - HEADER};
      Scramble();
    }
  }

  /** size_class of a block for this request: its class size, or 0 for a large one. */
  function ClassFor(g: T.Config, sizes: seq<nat>, size: nat, alignment: nat): nat
    requires T.Wf(g) && sizes == T.ClassSizes(g)
  {
    if size <= g.t3 && alignment <= ALIGNMENT then
      T.ClosedFormAgreesWithTable(g, size);
      sizes[T.ClassIndex(g, if size == 0 then 1 else size).value]
    else 0
  }

  // ---- the invariant, on values ----

  datatype CacheBin = CacheBin(head: Addr, count: nat, bytes: nat)

  /** The cache of one thread together with what it shares with the arenas. */
  datatype Picture = Picture(
    node: nat, bins: seq<CacheBin>, lists: seq<seq<Addr>>,
    words: map<Addr, Addr>, headers: map<Addr, BlockHeader>, outstanding: map<Addr, nat>)

  /** Bin i is linked in memory, counted right, within its cap, and holds blocks of this node and class. */
  ghost predicate BinHolds(g: T.Config, size: nat, p: Picture, i: nat)
    requires i < |p.bins| && i < |p.lists|
  {
    var bin, list := p.bins[i], p.lists[i];
    && NoDup(list) && Chain(p.words, bin.head, list) && bin.count == |list| && bin.bytes == |list| * size
    && bin.bytes <= T.MaxCachedBytes(g, size)
    && forall b | b in list :: Stamped(p, b, p.node, size) && b in p.outstanding && p.outstanding[b] >= size
  }

  ghost predicate Stamped(p: Picture, b: Addr, node: nat, size: nat)
  {
    b in p.headers && p.headers[b].nodeId == node && p.headers[b].sizeClass == size
  }

  ghost function Sound(g: T.Config, sizes: seq<nat>): iset<Picture>
  {
    iset p: Picture | |p.bins| == |sizes| && |p.lists| == |sizes| && p.outstanding in Spread() && AllHold(g, sizes, p)
  }

  ghost predicate AllHold(g: T.Config, sizes: seq<nat>, p: Picture)
    requires |p.bins| == |sizes| && |p.lists| == |sizes|
  {
    forall i {:trigger p.lists[i]} | 0 <= i < |sizes| :: BinHolds(g, sizes[i], p, i)
  }

  ghost function Cached(lists: seq<seq<Addr>>): iset<Addr>
  {
    iset b | InSome(lists, b)
  }

  ghost predicate InSome(lists: seq<seq<Addr>>, b: Addr)
  {
    exists i {:trigger lists[i]} :: 0 <= i < |lists| && b in lists[i]
  }

  /** What users hold: blocks that are out and not in this cache. */
  ghost function Live(p: Picture): iset<Addr>
  {
    iset b | b in p.outstanding && b !in Cached(p.lists)
  }

  /** Every block that users hold before and after has its payload, its length and its header as before. */
  ghost function LiveKept(p: Picture): iset<Picture>
  {
    iset p': Picture | forall b {:trigger p.outstanding[b]} | b in Live(p) && b in Live(p') :: Kept(p, p', b)
  }

  ghost predicate Kept(p: Picture, p': Picture, b: Addr)
    requires b in p.outstanding && b in p'.outstanding
  {
    && p'.outstanding[b] == p.outstanding[b] && PayloadKept(p.words, p'.words, b, p.outstanding[b])
    && (b in p.headers ==> b in p'.headers && p'.headers[b] == p.headers[b])
  }

  // ---- steps that leave the bins alone ----

  /** The bins are as before, every cached block is still out, and no block that stayed out was touched. */
  ghost predicate BinsLeftAlone(p: Picture, p': Picture)
  {
    && p'.node == p.node && p'.bins == p.bins && p'.lists == p.lists
    && (forall b | b in Cached(p.lists) && b in p.outstanding :: b in p'.outstanding)
    && (forall b {:trigger p.outstanding[b]} | b in p.outstanding && b in p'.outstanding :: Kept(p, p', b))
  }

  /** Whatever the arenas do with blocks that are not out, and whatever comes out or goes back that is not
      cached, leaves the cache as it is. */
  lemma Unaffected(g: T.Config, sizes: seq<nat>, p: Picture, p': Picture)
    requires p in Sound(g, sizes) && BinsLeftAlone(p, p') && p'.outstanding in Spread()
    ensures p' in Sound(g, sizes) && p' in LiveKept(p)
  {
    forall i | 0 <= i < |sizes| ensures BinHolds(g, sizes[i], p', i) {
      assert BinHolds(g, sizes[i], p, i);
      forall b | b in p.lists[i] ensures b in p'.outstanding && Kept(p, p', b) && Load(p'.words, Link(b)) == Load(p.words, Link(b)) {
        assert b in Cached(p.lists) && p.outstanding[b] >= LINK_SIZE;
      }
      ChainFrame(p.words, p'.words, p.bins[i].head, p.lists[i]);
    }
    forall b | b in Live(p) && b in Live(p') ensures Kept(p, p', b) { assert p.outstanding[b] == p.outstanding[b]; }
  }

  lemma LiveKeptSelf(p: Picture)
    ensures p in LiveKept(p)
  {
    forall b | b in Live(p) ensures Kept(p, p, b) { assert p.outstanding[b] == p.outstanding[b]; }
  }

  /** A write into the payload of a block that users hold touches no cached block and no other held one. */
  lemma UserWriteKeeps(g: T.Config, sizes: seq<nat>, p: Picture, b: Addr, at: Addr, v: Addr)
    requires p in Sound(g, sizes) && b in Live(p) && Link(b) <= at < Link(b) + p.outstanding[b]
    ensures p.(words := p.words[at := v]) in Sound(g, sizes)
    ensures forall c | c in p.outstanding && c != b :: Kept(p, p.(words := p.words[at := v]), c)
  {
    var p' := p.(words := p.words[at := v]);
    forall c | c in p.outstanding && c != b ensures Kept(p, p', c) {
      assert RangesApart(Link(b), p.outstanding[b], Link(c), p.outstanding[c]);
    }
    forall i | 0 <= i < |sizes| ensures BinHolds(g, sizes[i], p', i) {
      assert BinHolds(g, sizes[i], p, i);
      forall c | c in p.lists[i] ensures Load(p'.words, Link(c)) == Load(p.words, Link(c)) {
        assert c in Cached(p.lists) && p.outstanding[c] >= LINK_SIZE && Kept(p, p', c);
      }
      ChainFrame(p.words, p'.words, p.bins[i].head, p.lists[i]);
    }
  }

  // ---- taking from and adding to a bin ----

  /** A block is in one bin only: its header says which. */
  lemma OneBinOnly(g: T.Config, sizes: seq<nat>, p: Picture, i: nat, j: nat, b: Addr)
    requires T.Wf(g) && sizes == T.ClassSizes(g) && p in Sound(g, sizes)
    requires i < |sizes| && j < |sizes| && b in p.lists[i] && b in p.lists[j]
    ensures i == j
  {
    assert BinHolds(g, sizes[i], p, i) && BinHolds(g, sizes[j], p, j);
    T.RoundingIsIdempotent(g, i);
    T.RoundingIsIdempotent(g, j);
  }

  /** The head of a bin is its first block, which is out, stamped and counted. */
  lemma BinFront(g: T.Config, sizes: seq<nat>, p: Picture, i: nat)
    requires p in Sound(g, sizes) && i < |sizes|
    ensures p.bins[i].head == NULL <==> p.lists[i] == []
    ensures p.lists[i] != [] ==> p.bins[i].head == p.lists[i][0] && p.bins[i].count >= 1 && p.bins[i].bytes >= sizes[i]
    ensures p.lists[i] != [] ==> p.lists[i][0] in p.outstanding && p.outstanding[p.lists[i][0]] >= sizes[i]
    ensures p.lists[i] != [] ==> Stamped(p, p.lists[i][0], p.node, sizes[i])
  {
    assert BinHolds(g, sizes[i], p, i);
    if p.lists[i] != [] { MulMono(1, |p.lists[i]|, sizes[i]); }
  }

  ghost function PopAt(p: Picture, i: nat, bin: CacheBin): Picture
    requires i < |p.bins| && i < |p.lists| && p.lists[i] != []
  {
    p.(bins := p.bins[i := bin], lists := p.lists[i := p.lists[i][1..]])
  }

  /** take_cached: the head block leaves the cache for the user. */
  lemma PopKeeps(g: T.Config, sizes: seq<nat>, p: Picture, i: nat, bin: CacheBin)
    requires T.Wf(g) && sizes == T.ClassSizes(g) && p in Sound(g, sizes) && i < |sizes| && p.lists[i] != []
    requires p.bins[i].count >= 1 && p.bins[i].bytes >= sizes[i]
    requires bin == CacheBin(Load(p.words, Link(p.bins[i].head)), p.bins[i].count - 1, p.bins[i].bytes - sizes[i])
    ensures PopAt(p, i, bin) in Sound(g, sizes) && PopAt(p, i, bin) in LiveKept(p)
    ensures p.lists[i][0] in p.outstanding && p.lists[i][0] in Cached(p.lists)
    ensures Cached(PopAt(p, i, bin).lists) == Cached(p.lists) - iset{p.lists[i][0]}
    ensures Live(PopAt(p, i, bin)) == Live(p) + iset{p.lists[i][0]}
  {
    assert BinHolds(g, sizes[i], p, i);
    PopBinHolds(g, sizes[i], p, i, bin);
    var q := PopAt(p, i, bin);
    forall j | 0 <= j < |sizes| ensures BinHolds(g, sizes[j], q, j) {
      if j != i { assert BinHolds(g, sizes[j], p, j); }
    }
    PopCached(g, sizes, p, i, q.lists);
  }

  lemma PopBinHolds(g: T.Config, size: nat, p: Picture, i: nat, bin: CacheBin)
    requires i < |p.bins| && i < |p.lists| && p.lists[i] != [] && BinHolds(g, size, p, i)
    requires p.bins[i].count >= 1 && p.bins[i].bytes >= size
    requires bin == CacheBin(Load(p.words, Link(p.bins[i].head)), p.bins[i].count - 1, p.bins[i].bytes - size)
    ensures BinHolds(g, size, PopAt(p, i, bin), i)
  {
    var list := p.lists[i];
    NoDupTail(list);
    assert forall b | b in list[1..] :: b in list;
    assert |list| * size == (|list| - 1) * size + size;
  }

  lemma PopCached(g: T.Config, sizes: seq<nat>, p: Picture, i: nat, lists: seq<seq<Addr>>)
    requires T.Wf(g) && sizes == T.ClassSizes(g) && p in Sound(g, sizes) && i < |sizes| && p.lists[i] != []
    requires lists == p.lists[i := p.lists[i][1..]]
    ensures p.lists[i][0] in Cached(p.lists)
    ensures Cached(lists) == Cached(p.lists) - iset{p.lists[i][0]}
  {
    var b, list := p.lists[i][0], p.lists[i];
    assert BinHolds(g, sizes[i], p, i);
    NoDupTail(list);
    assert b in p.lists[i] && b !in list[1..] by { assert b !in Elems(list[1..]); }
    forall x ensures x in Cached(lists) <==> x in Cached(p.lists) && x != b {
      if x in Cached(p.lists) && x != b {
        var j :| 0 <= j < |p.lists| && x in p.lists[j];
        if j == i { assert x in Elems(list[1..]); }
        assert x in lists[j];
      }
      if x in Cached(lists) {
        var j :| 0 <= j < |lists| && x in lists[j];
        assert x in p.lists[j];
        if x == b { OneBinOnly(g, sizes, p, i, j, b); }
      }
    }
  }

  ghost function PushAt(p: Picture, i: nat, bin: CacheBin, b: Addr): Picture
    requires i < |p.bins| && i < |p.lists|
  {
    p.(bins := p.bins[i := bin], lists := p.lists[i := [b] + p.lists[i]], words := p.words[Link(b) := p.bins[i].head])
  }

  /** cache_block: a block the user gives back joins the bin of its class. */
  lemma PushKeeps(g: T.Config, sizes: seq<nat>, p: Picture, i: nat, bin: CacheBin, b: Addr)
    requires p in Sound(g, sizes) && i < |sizes| && b in Live(p) && b != NULL && p.outstanding[b] >= sizes[i]
    requires Stamped(p, b, p.node, sizes[i]) && p.bins[i].bytes + sizes[i] <= T.MaxCachedBytes(g, sizes[i])
    requires bin == CacheBin(b, p.bins[i].count + 1, p.bins[i].bytes + sizes[i])
    ensures PushAt(p, i, bin, b) in Sound(g, sizes) && PushAt(p, i, bin, b) in LiveKept(p)
    ensures Live(PushAt(p, i, bin, b)) == Live(p) - iset{b}
  {
    var q := PushAt(p, i, bin, b);
    var w := p.(words := q.words);
    assert p.outstanding[b] >= LINK_SIZE;
    UserWriteKeeps(g, sizes, p, b, Link(b), p.bins[i].head);
    PushBinHolds(g, sizes[i], p, i, bin, b);
    forall j | 0 <= j < |sizes| ensures BinHolds(g, sizes[j], q, j) {
      if j != i { assert w.lists[j] == p.lists[j] && BinHolds(g, sizes[j], w, j); }
    }
    PushCached(p.lists, i, b);
    forall c | c in Live(p) && c in Live(q) ensures Kept(p, q, c) { assert c != b && Kept(p, w, c); }
  }

  lemma PushBinHolds(g: T.Config, size: nat, p: Picture, i: nat, bin: CacheBin, b: Addr)
    requires i < |p.bins| && i < |p.lists| && b in Live(p) && b != NULL && p.outstanding[b] >= size
    requires BinHolds(g, size, p, i) && Stamped(p, b, p.node, size) && p.bins[i].bytes + size <= T.MaxCachedBytes(g, size)
    requires bin == CacheBin(b, p.bins[i].count + 1, p.bins[i].bytes + size)
    ensures BinHolds(g, size, PushAt(p, i, bin, b), i)
  {
    var list := p.lists[i];
    assert b !in list;
    ChainPush(p.words, b, p.bins[i].head, list);
    NoDupPush(b, list);
    assert (|list| + 1) * size == |list| * size + size;
  }

  lemma PushCached(lists: seq<seq<Addr>>, i: nat, b: Addr)
    requires i < |lists|
    ensures Cached(lists[i := [b] + lists[i]]) == Cached(lists) + iset{b}
  {
    var lists' := lists[i := [b] + lists[i]];
    forall x ensures x in Cached(lists') <==> x in Cached(lists) || x == b {
      if x in Cached(lists) {
        var j :| 0 <= j < |lists| && x in lists[j];
        assert x in lists'[j];
      }
      if x == b { assert x in lists'[i]; }
      if x in Cached(lists') {
        var j :| 0 <= j < |lists'| && x in lists'[j];
        assert x == b || x in lists[j];
      }
    }
  }

  // ---- the cache ----

  class ThreadLocalCache {
    const nodeId: nat
    var useThreadCache: bool
    const arena: Arenas
    const bins: array<CacheBin>
    ghost var lists: seq<seq<Addr>>

    ghost function Now(): Picture
      reads this, arena, bins
    {
      Picture(nodeId, bins[..], lists, arena.words, arena.headers, arena.outstanding)
    }

    ghost predicate Valid()
      reads this, arena, bins
    {
      arena.Fitted() && bins.Length == |arena.sizes| && Now() in Sound(arena.table, arena.sizes)
    }

    constructor (arena: Arenas, nodeId: nat, useThreadCache: bool)
      requires arena.Fitted() && arena.outstanding in Spread()
      ensures Valid() && fresh(bins) && this.arena == arena && this.nodeId == nodeId && this.useThreadCache == useThreadCache
      ensures |lists| == |arena.sizes| && (forall i | 0 <= i < |lists| :: lists[i] == []) && Cached(lists) == iset{}
      ensures forall i | 0 <= i < bins.Length :: bins[i] == CacheBin(NULL, 0, 0)
    {
      this.nodeId, this.useThreadCache, this.arena := nodeId, useThreadCache, arena;
      bins := new CacheBin[|arena.sizes|](_ => CacheBin(NULL, 0, 0));
      lists := seq(|arena.sizes|, _ => []);
      new;
      forall i | 0 <= i < |arena.sizes| ensures BinHolds(arena.table, arena.sizes[i], Now(), i) {}
      assert forall b :: b !in Cached(lists);
    }

    /** set_use_thread_cache: what is cached stays cached. */
    method SetUseThreadCache(use: bool)
      requires Valid()
      modifies `useThreadCache
      ensures Valid() && useThreadCache == use
    {
      useThreadCache := use;
    }

    /** A user writes anywhere into the payload of a block it holds: the cache is untouched, and so is every
        other block that is out. */
    method WritePayload(b: Addr, at: Addr, value: Addr)
      requires Valid() && b in Live(Now()) && Link(b) <= at < Link(b) + arena.outstanding[b]
      modifies arena`words
      ensures Valid() && arena.words == old(arena.words)[at := value]
      ensures forall c | c in arena.outstanding && c != b :: PayloadKept(old(arena.words), arena.words, c, arena.outstanding[c])
    {
      UserWriteKeeps(arena.table, arena.sizes, Now(), b, at, value);
      arena.words := arena.words[at := value];
    }

    /** take_cached; null when the bin is empty. */
    method TakeCached(i: nat) returns (header: Addr)
      requires Valid() && i < |arena.sizes|
      modifies this`lists, bins
      ensures Valid() && Now() in LiveKept(old(Now()))
      ensures header == NULL <==> old(lists)[i] == []
      ensures header == NULL ==> Now() == old(Now())
      ensures header != NULL ==> lists == old(lists)[i := old(lists)[i][1..]] && header == old(lists)[i][0]
      ensures header != NULL ==> header in old(Cached(lists)) && Stamped(Now(), header, nodeId, arena.sizes[i])
      ensures header != NULL ==> header in arena.outstanding && arena.outstanding[header] >= arena.sizes[i]
      ensures header != NULL ==> Live(Now()) == old(Live(Now())) + iset{header} && Cached(lists) == old(Cached(lists)) - iset{header}
    {
      ghost var p := Now();
      BinFront(arena.table, arena.sizes, p, i);
      LiveKeptSelf(p);
      header := bins[i].head;
      if header == NULL { return; }
      var bin := CacheBin(Load(arena.words, Link(header)), bins[i].count - 1, bins[i].bytes - arena.headers[header].sizeClass);
      PopKeeps(arena.table, arena.sizes, p, i, bin);
      SetBin(i, bin, lists[i][1..]);
    }

    method SetBin(i: nat, bin: CacheBin, ghost list: seq<Addr>)
      requires i < bins.Length && i < |lists|
      modifies this`lists, bins
      ensures Now() == old(Now()).(bins := old(bins[..])[i := bin], lists := old(lists)[i := list])
    {
      bins[i] := bin;
      lists := lists[i := list];
    }

    /** cache_block; false when the bin's byte cap would be exceeded. */
    method CacheBlock(header: Addr, i: nat) returns (ok: bool)
      requires Valid() && i < |arena.sizes| && header != NULL && header in Live(Now()) && arena.outstanding[header] >= arena.sizes[i]
      requires Stamped(Now(), header, nodeId, arena.sizes[i])
      modifies this`lists, bins, arena`words
      ensures Valid() && Now() in LiveKept(old(Now()))
      ensures ok == (old(bins[i].bytes) + arena.sizes[i] <= T.MaxCachedBytes(arena.table, arena.sizes[i]))
      ensures !ok ==> Now() == old(Now())
      ensures ok ==> lists == old(lists)[i := [header] + old(lists)[i]] && Live(Now()) == old(Live(Now())) - iset{header}
    {
      var classSize := arena.headers[header].sizeClass;
      if bins[i].bytes + classSize > T.MaxCachedBytes(arena.table, classSize) { return false; }
      ghost var p := Now();
      var bin := CacheBin(header, bins[i].count + 1, bins[i].bytes + classSize);
      PushKeeps(arena.table, arena.sizes, p, i, bin, header);
      LinkInFront(i, header, bin);
      ok := true;
    }

    method LinkInFront(i: nat, header: Addr, bin: CacheBin)
      requires i < bins.Length && i < |lists|
      modifies this`lists, bins, arena`words
      ensures Now() == PushAt(old(Now()), i, bin, header)
    {
      arena.words := arena.words[Link(header) := bins[i].head];
      SetBin(i, bin, [header] + lists[i]);
    }

    /** ThreadLocalCache::allocate. With the cache on, a small request whose bin has a block gets the one cached last,
        and the arena is not asked; every other request gets what the arena finds, and the bins stay as they are. Either
        way the user has one block more than it held, stamped with this node and the request's class and long enough,
        and nothing it held is touched. */
    method Allocate(size: nat, alignment: nat, block: Option<Addr>, n: nat) returns (ptr: Option<Addr>)
      requires Valid() && (block.Some? ==> FreshBlock(arena.table, arena.sizes, arena.outstanding, size, alignment, block.value, n))
      modifies this`lists, bins, arena
      ensures Valid() && Now() in LiveKept(old(Now()))
      ensures ptr.None? ==> block.None? && Live(Now()) == old(Live(Now())) && lists == old(lists)
      ensures ptr.Some? ==>
        ptr.value >= HEADER && Now() in GotBlock(old(Now()), arena.table, arena.sizes, size, alignment, ptr.value - HEADER)
      ensures |old(lists)| == |arena.sizes|
      ensures forall i | useThreadCache && size <= arena.table.t3 && alignment <= 16 && T.IsLeastEntry(arena.sizes, i, size) && old(lists)[i] != [] ::
        && ptr == Some(Link(old(lists)[i][0]))
        && Now() == old(Now()).(bins := bins[..], lists := old(lists)[i := old(lists)[i][1..]])
      ensures !useThreadCache || size > arena.table.t3 || alignment > 16 || (forall i | T.IsLeastEntry(arena.sizes, i, size) :: old(lists)[i] == []) ==>
        lists == old(lists) && bins[..] == old(bins[..]) && ptr == FromArena(block)
    {
      if !useThreadCache {
        ptr := AllocateFromArena(size, alignment, block, n);
        return;
      }
      if size <= arena.table.t3 { T.OneLeastEntry(arena.table, size); }
      var request := if size == 0 then 1 else size;
      if request <= arena.table.t3 && alignment <= ALIGNMENT {
        ptr := AllocateSmall(size, alignment, block, n);
        return;
      }
      ptr := AllocateFromArena(size, alignment, block, n);
    }

    /** The bin of the request's class, or else the arena. */
    method AllocateSmall(size: nat, alignment: nat, block: Option<Addr>, n: nat) returns (ptr: Option<Addr>)
      requires Valid() && (block.Some? ==> FreshBlock(arena.table, arena.sizes, arena.outstanding, size, alignment, block.value, n))
      requires (if size == 0 then 1 else size) <= arena.table.t3 && alignment <= ALIGNMENT
      modifies this`lists, bins, arena
      ensures Valid() && Now() in LiveKept(old(Now()))
      ensures ptr.None? ==> block.None? && Live(Now()) == old(Live(Now())) && lists == old(lists)
      ensures ptr.Some? ==>
        ptr.value >= HEADER && Now() in GotBlock(old(Now()), arena.table, arena.sizes, size, alignment, ptr.value - HEADER)
      ensures |old(lists)| == |arena.sizes|
      ensures var i := BinFor(arena.table, arena.sizes, size);
        if old(lists)[i] != [] then
          ptr == Some(Link(old(lists)[i][0])) && Now() == old(Now()).(bins := bins[..], lists := old(lists)[i := old(lists)[i][1..]])
        else lists == old(lists) && bins[..] == old(bins[..]) && ptr == FromArena(block)
    {
      var request := if size == 0 then 1 else size;
      T.ClosedFormAgreesWithTable(arena.table, request);
      var i := T.ClassIndex(arena.table, request).value;
      ghost var p := Now();
      var header := TakeCached(i);
      if header != NULL {
        GotCached(p, arena.table, arena.sizes, size, alignment, header, Now());
        return Some(Link(header));
      }
      ptr := AllocateMiss(size, alignment, block, n, arena.sizes[i]);
    }

    /** arena_->allocate and the cache's own stamp over the arena's. */
    method AllocateMiss(size: nat, alignment: nat, block: Option<Addr>, n: nat, classSize: nat) returns (ptr: Option<Addr>)
      requires Valid() && (block.Some? ==> FreshBlock(arena.table, arena.sizes, arena.outstanding, size, alignment, block.value, n))
      requires classSize == ClassFor(arena.table, arena.sizes, size, alignment)
      modifies arena`words, arena`headers, arena`outstanding
      ensures Valid() && Now() in LiveKept(old(Now())) && ptr == FromArena(block)
      ensures ptr.None? ==> Live(Now()) == old(Live(Now()))
      ensures ptr.Some? ==>
        ptr.value >= HEADER && Now() in GotBlock(old(Now()), arena.table, arena.sizes, size, alignment, ptr.value - HEADER)
    {
      ghost var p := Now();
      ptr := AllocateFromArena(size, alignment, block, n);
      if ptr.None? { return; }
      ghost var m := Now();
      Restamp(ptr.value - HEADER, classSize);
      RestampGot(arena.table, arena.sizes, p, m, Now(), size, alignment, ptr.value - HEADER);
    }

    /** The header fields the cache writes over the arena's. */
    method Restamp(b: Addr, classSize: nat)
      requires Valid() && b in Live(Now()) && Stamped(Now(), b, nodeId, classSize)
      modifies arena`headers
      ensures Valid() && Stamped(Now(), b, nodeId, classSize)
      ensures Now() == old(Now()).(headers := old(arena.headers)[b := old(arena.headers)[b].(size := 0)])
    {
      ghost var p := Now();
      arena.headers := arena.headers[b := arena.headers[b].(nodeId := nodeId, sizeClass := classSize, size := 0)];
      RestampKeeps(arena.table, arena.sizes, p, Now(), b);
    }

    /** arena_->allocate. */
    method AllocateFromArena(size: nat, alignment: nat, block: Option<Addr>, n: nat) returns (ptr: Option<Addr>)
      requires Valid() && (block.Some? ==> FreshBlock(arena.table, arena.sizes, arena.outstanding, size, alignment, block.value, n))
      modifies arena`words, arena`headers, arena`outstanding
      ensures Valid() && Now() in LiveKept(old(Now())) && ptr == FromArena(block)
      ensures ptr.None? ==> Live(Now()) == old(Live(Now()))
      ensures ptr.Some? ==>
        ptr.value >= HEADER && Now() in GotBlock(old(Now()), arena.table, arena.sizes, size, alignment, ptr.value - HEADER)
    {
      ghost var p := Now();
      ptr := arena.Allocate(nodeId, size, alignment, block, n);
      Unaffected(arena.table, arena.sizes, p, Now());
      if block.Some? {
        NotCached(arena.table, arena.sizes, p, block.value);
        OneMoreOut(p, Now(), block.value, n);
      }
    }

    /** ThreadLocalCache::deallocate. The user loses exactly this block. It goes in front of its class's bin when the
        cache is on, the block is small and of this node and the bin's cap leaves room; in every other case it goes to
        the arena its header names, and the bins stay as they are. */
    method Deallocate(ptr: Addr)
      requires Valid() && (ptr == NULL || (ptr > HEADER && Freeable(ptr - HEADER)))
      modifies this`lists, bins, arena
      ensures Valid() && Now() in LiveKept(old(Now()))
      ensures ptr == NULL ==> Now() == old(Now()) && arena.returned == old(arena.returned)
      ensures ptr != NULL ==> Live(Now()) == old(Live(Now())) - iset{ptr - HEADER}
      ensures ptr != NULL && old(Keeps(ptr - HEADER)) ==> arena.outstanding == old(arena.outstanding) && arena.returned == old(arena.returned)
      ensures ptr != NULL && !old(Keeps(ptr - HEADER)) ==> lists == old(lists) && arena.outstanding == old(arena.outstanding) - {ptr - HEADER}
      ensures ptr != NULL && !old(Keeps(ptr - HEADER)) ==>
        arena.returned == old(arena.returned) + [old(HomeOf(ptr - HEADER))]
      ensures |old(lists)| == |arena.sizes| == bins.Length && (ptr != NULL ==> ptr - HEADER in old(arena.headers))
      ensures ptr != NULL && (!useThreadCache || old(arena.headers)[ptr - HEADER].sizeClass == 0 || old(arena.headers)[ptr - HEADER].nodeId != nodeId) ==>
        lists == old(lists) && bins[..] == old(bins[..]) && arena.returned == old(arena.returned)
          + [Return(ptr - HEADER, old(arena.headers)[ptr - HEADER].nodeId, old(arena.headers)[ptr - HEADER].sizeClass)]
      ensures forall i | ptr != NULL && useThreadCache && old(arena.headers)[ptr - HEADER].nodeId == nodeId
                         && 0 <= i < |arena.sizes| && arena.sizes[i] == old(arena.headers)[ptr - HEADER].sizeClass ::
        if old(bins[i]).bytes + arena.sizes[i] <= T.MaxCachedBytes(arena.table, arena.sizes[i])
        then lists == old(lists)[i := [ptr - HEADER] + old(lists)[i]] && arena.returned == old(arena.returned)
        else lists == old(lists) && bins[..] == old(bins[..]) && arena.returned == old(arena.returned) + [Return(ptr - HEADER, nodeId, arena.sizes[i])]
    {
      if ptr == NULL {
        LiveKeptSelf(Now());
        return;
      }
      var header := arena.headers[ptr - HEADER];
      NoClassIsZero(arena.table);
      if !useThreadCache || header.sizeClass == 0 || header.nodeId != nodeId {
        DeallocateToArena(ptr);
        return;
      }
      DeallocateCacheable(ptr);
    }

    /** The class's bin if it has room, the arena otherwise. */
    method DeallocateCacheable(ptr: Addr)
      requires Valid() && useThreadCache && ptr > HEADER && Freeable(ptr - HEADER)
      requires arena.headers[ptr - HEADER].sizeClass != 0 && arena.headers[ptr - HEADER].nodeId == nodeId
      modifies this`lists, bins, arena
      ensures Valid() && Now() in LiveKept(old(Now())) && Live(Now()) == old(Live(Now())) - iset{ptr - HEADER}
      ensures old(Keeps(ptr - HEADER)) ==> arena.outstanding == old(arena.outstanding) && arena.returned == old(arena.returned)
      ensures !old(Keeps(ptr - HEADER)) ==> lists == old(lists) && arena.outstanding == old(arena.outstanding) - {ptr - HEADER}
      ensures !old(Keeps(ptr - HEADER)) ==> arena.returned == old(arena.returned) + [old(HomeOf(ptr - HEADER))]
      ensures |old(lists)| == |arena.sizes| == bins.Length && ptr - HEADER in old(arena.headers)
      ensures forall i | 0 <= i < |arena.sizes| && arena.sizes[i] == old(arena.headers)[ptr - HEADER].sizeClass ::
        if old(bins[i]).bytes + arena.sizes[i] <= T.MaxCachedBytes(arena.table, arena.sizes[i])
        then lists == old(lists)[i := [ptr - HEADER] + old(lists)[i]] && arena.returned == old(arena.returned)
        else lists == old(lists) && bins[..] == old(bins[..]) && arena.returned == old(arena.returned) + [Return(ptr - HEADER, nodeId, arena.sizes[i])]
    {
      var header := arena.headers[ptr - HEADER];
      ClassOfHeader(arena.table, header.sizeClass);
      OneEntry(arena.table, header.sizeClass);
      var i := T.ClassIndex(arena.table, header.sizeClass).value;
      var kept := CacheBlock(ptr - HEADER, i);
      if kept { return; }
      DeallocateToArena(ptr);
    }

    /** A block a user may free: it holds it, and the header is as allocation left it. */
    ghost predicate Freeable(b: Addr)
      reads this, arena, bins
    {
      && b in Live(Now()) && b in arena.headers
      && (arena.headers[b].sizeClass == 0 || (arena.headers[b].sizeClass in arena.sizes && arena.outstanding[b] >= arena.headers[b].sizeClass))
    }

    /** Where the block's header sends it. */
    ghost function HomeOf(b: Addr): Return
      requires b in arena.headers
      reads arena
    {
      Return(b, arena.headers[b].nodeId, arena.headers[b].sizeClass)
    }

    /** Whether deallocate puts the block into its bin. */
    ghost predicate Keeps(b: Addr)
      requires b in arena.headers && arena.Fitted() && bins.Length == |arena.sizes|
      reads this, arena, bins
    {
      var h := arena.headers[b];
      && useThreadCache && h.sizeClass in arena.sizes && h.nodeId == nodeId
      && var index := T.ClassIndex(arena.table, h.sizeClass);
         index.Index? && index.value < bins.Length
         && bins[index.value].bytes + h.sizeClass <= T.MaxCachedBytes(arena.table, h.sizeClass)
    }

    /** arena_->deallocate for a block the user holds. */
    method DeallocateToArena(ptr: Addr)
      requires Valid() && ptr >= HEADER && ptr - HEADER in Live(Now()) && ptr - HEADER in arena.headers
      modifies arena
      ensures Valid() && Now() in LiveKept(old(Now())) && Live(Now()) == old(Live(Now())) - iset{ptr - HEADER}
      ensures arena.outstanding == old(arena.outstanding) - {ptr - HEADER}
      ensures arena.returned == old(arena.returned) + [old(HomeOf(ptr - HEADER))]
    {
      ghost var p := Now();
      arena.Deallocate(ptr);
      Unaffected(arena.table, arena.sizes, p, Now());
    }

    /** ThreadLocalCache::flush: every cached block is sent, once and in bin order, to the arena of this node and
        to its own class; users notice nothing. */
    method Flush()
      requires Valid()
      modifies this`lists, bins, arena
      ensures Valid() && Cached(lists) == iset{} && Now() in LiveKept(old(Now()))
      ensures Live(Now()) == old(Live(Now())) && forall b :: b in arena.outstanding <==> b in old(Live(Now()))
      ensures arena.returned == old(arena.returned) + Homes(old(lists), arena.sizes, nodeId, 0)
    {
      ghost var p, r := Now(), arena.returned;
      var i := 0;
      while i < bins.Length
        invariant 0 <= i <= bins.Length && Valid() && Flushing(Now(), arena.returned) in Flushes(p, arena.sizes, r, i)
      {
        while bins[i].head != NULL
          invariant Valid() && Flushing(Now(), arena.returned) in Flushes(p, arena.sizes, r, i)
          decreases |lists[i]|
        {
          FlushOne(p, r, i);
        }
        FlushedBin(arena.table, arena.sizes, p, r, Now(), arena.returned, i);
        i := i + 1;
      }
      FlushedAll(p, arena.sizes, r, Now(), arena.returned);
    }

    /** One turn of the inner loop. */
    method FlushOne(ghost p: Picture, ghost r: seq<Return>, i: nat)
      requires Valid() && i < bins.Length && bins[i].head != NULL && Flushing(Now(), arena.returned) in Flushes(p, arena.sizes, r, i)
      modifies this`lists, bins, arena
      ensures Valid() && Flushing(Now(), arena.returned) in Flushes(p, arena.sizes, r, i)
      ensures |lists| == |old(lists)| && |lists[i]| < |old(lists)[i]|
    {
      ghost var q, ret := Now(), arena.returned;
      TakeAndReturn(i);
      FlushStep(p, arena.sizes, r, q, ret, Now(), i);
    }

    /** The bin's head block goes back to the arena. */
    method TakeAndReturn(i: nat)
      requires Valid() && i < |arena.sizes| && bins[i].head != NULL
      modifies this`lists, bins, arena
      ensures Valid() && Now() in LiveKept(old(Now())) && Live(Now()) == old(Live(Now()))
      ensures old(lists)[i] != [] && lists == old(lists)[i := old(lists)[i][1..]]
      ensures arena.returned == old(arena.returned) + [Return(old(lists)[i][0], nodeId, arena.sizes[i])]
    {
      ghost var p := Now();
      BinFront(arena.table, arena.sizes, p, i);
      var header := TakeCached(i);
      ghost var m := Now();
      DeallocateToArena(Link(header));
      LiveKeptTwice(p, m, Now());
    }
  }

  // ---- the owner ----

  /** ThreadNumaContextOwner: the thread's cache, made on first use and replaced when the thread has moved. */
  class ThreadNumaContextOwner {
    const arena: Arenas
    var cache: ThreadLocalCache?

    ghost function Parts(): set<object>
      reads this, cache
    {
      if cache == null then {} else {cache, cache.bins}
    }

    ghost predicate Valid()
      reads this, arena, cache, Parts()
    {
      arena.Fitted() && arena.outstanding in Spread() && (cache != null ==> cache.arena == arena && cache.Valid())
    }

    /** What the thread's users and everyone else hold: all that is out except what this cache keeps. */
    ghost function Held(): iset<Addr>
      requires Valid()
      reads this, arena, cache, Parts()
    {
      if cache == null then iset b | b in arena.outstanding else Live(cache.Now())
    }

    constructor (arena: Arenas)
      requires arena.Fitted() && arena.outstanding in Spread()
      ensures Valid() && cache == null && this.arena == arena
    {
      this.arena := arena;
      cache := null;
    }

    /** ensure_cache; `mapped` is whether the OS gives memory for a cache, false is the exception. */
    method EnsureCache(use: bool, node: nat, mapped: bool) returns (ok: bool)
      requires Valid()
      modifies `cache
      ensures Valid() && Held() == old(Held())
      ensures ok == (old(cache) != null || mapped) && (ok <==> cache != null)
      ensures old(cache) != null ==> cache == old(cache)
      ensures old(cache) == null && ok ==> fresh(cache) && fresh(cache.bins) && cache.nodeId == node && cache.useThreadCache == use
      ensures old(cache) == null && ok ==> forall l | l in cache.lists :: l == []
    {
      if cache == null {
        if !mapped { return false; }
        cache := new ThreadLocalCache(arena, node, use);
        assert Held() == old(Held());
      }
      ok := true;
    }

    /** configure: a cache that is on the current node stays as it is, with the flag as asked; one left behind on another
        node is flushed to its own node and replaced, or, without memory for that, stays untouched, flag and all. Users
        hold what they held, with what was in it. */
    method Configure(use: bool, createNode: nat, currentNode: nat, mapped: bool, replacementMapped: bool) returns (ok: bool)
      requires Valid()
      modifies this, Parts(), arena
      ensures Valid() && Held() == old(Held())
      ensures ok ==> cache != null && cache.nodeId == currentNode && cache.useThreadCache == use
      ensures ok <==> (old(cache) != null || mapped) && (replacementMapped || currentNode == if old(cache) == null then createNode else old(cache).nodeId)
      ensures !ok ==> cache != null || !mapped
      ensures old(cache) == null || old(cache).nodeId == currentNode || !replacementMapped ==> arena.returned == old(arena.returned)
      ensures old(cache) != null && (old(cache).nodeId == currentNode || !replacementMapped) ==>
        cache == old(cache) && cache.Now() == old(cache.Now()) && (!ok ==> cache.useThreadCache == old(cache.useThreadCache))
      ensures old(cache) != null && old(cache).nodeId != currentNode && replacementMapped ==>
        cache != old(cache) && Cached(cache.lists) == iset{}
        && arena.returned == old(arena.returned) + Homes(old(cache.lists), arena.sizes, old(cache).nodeId, 0)
      ensures ok && old(cache) != null && cache != old(cache) ==> forall b :: b in arena.outstanding <==> b in old(Held())
      ensures forall b | b in old(Held()) ::
        b in old(arena.outstanding) && b in arena.outstanding && PayloadKept(old(arena.words), arena.words, b, old(arena.outstanding)[b])
    {
      var made := EnsureCache(use, createNode, mapped);
      if !made { return false; }
      if cache.nodeId == currentNode {
        cache.SetUseThreadCache(use);
        return true;
      }
      if !replacementMapped { return false; }
      ghost var p := cache.Now();
      if old(cache) == null { NoHomes(cache.lists, arena.sizes, cache.nodeId, 0); }
      cache.Flush();
      LiveKeptHas(p, cache.Now());
      cache := new ThreadLocalCache(arena, currentNode, use);
      ok := true;
    }

    /** ~ThreadNumaContextOwner: the cache is flushed; only what users hold is still out. */
    method Destroy()
      requires Valid()
      modifies this, Parts(), arena
      ensures Valid() && cache == null && Held() == old(Held())
      ensures forall b :: b in arena.outstanding <==> b in old(Held())
    {
      if cache != null {
        cache.Flush();
        cache := null;
      }
    }
  }

  // ---- what the methods' contracts say ----

  /** The user has block b more than before, long enough and stamped for the request. */
  ghost function GotBlock(p: Picture, g: T.Config, sizes: seq<nat>, size: nat, alignment: nat, b: Addr): iset<Picture>
    requires T.Wf(g) && sizes == T.ClassSizes(g)
  {
    iset p': Picture |
      && b !in Live(p) && Live(p') == Live(p) + iset{b}
      && b in p'.outstanding && p'.outstanding[b] >= size && p'.outstanding[b] >= ClassFor(g, sizes, size, alignment)
      && Stamped(p', b, p.node, ClassFor(g, sizes, size, alignment))
  }

  /** The user pointer of the block an arena found. */
  function FromArena(block: Option<Addr>): Option<Addr>
  {
    if block.Some? then Some(Link(block.value)) else None
  }

  /** The bin of a small request. */
  ghost function BinFor(g: T.Config, sizes: seq<nat>, size: nat): (i: nat)
    requires T.Wf(g) && sizes == T.ClassSizes(g) && size <= g.t3
    ensures i < |sizes|
  {
    T.ClosedFormAgreesWithTable(g, if size == 0 then 1 else size);
    T.ClassIndex(g, if size == 0 then 1 else size).value
  }

  /** What a block is stamped with: the least class that holds the request, or 0 when the request is large or wants more
      than 16-byte alignment. */
  lemma ClassForExactly(g: T.Config, sizes: seq<nat>, size: nat, alignment: nat, i: int)
    requires T.Wf(g) && sizes == T.ClassSizes(g)
    ensures size > g.t3 || alignment > 16 ==> ClassFor(g, sizes, size, alignment) == 0
    ensures size <= g.t3 && alignment <= 16 && T.IsLeastEntry(sizes, i, size) ==> ClassFor(g, sizes, size, alignment) == sizes[i]
  {
    if size <= g.t3 { T.OneLeastEntry(g, size); }
  }

  /** A block from the bin of the request's class is a block for the request. */
  lemma GotCached(p: Picture, g: T.Config, sizes: seq<nat>, size: nat, alignment: nat, b: Addr, p': Picture)
    requires T.Wf(g) && sizes == T.ClassSizes(g) && size <= g.t3 && alignment <= ALIGNMENT
    requires b in Cached(p.lists) && Live(p') == Live(p) + iset{b} && b in p'.outstanding
    requires p'.outstanding[b] >= ClassFor(g, sizes, size, alignment) && Stamped(p', b, p.node, ClassFor(g, sizes, size, alignment))
    ensures p' in GotBlock(p, g, sizes, size, alignment, b)
  {
    T.ClosedFormAgreesWithTable(g, if size == 0 then 1 else size);
  }

  lemma LiveKeptHas(p: Picture, p': Picture)
    requires p' in LiveKept(p) && Live(p') == Live(p)
    ensures forall b | b in Live(p) :: b in p'.outstanding && PayloadKept(p.words, p'.words, b, p.outstanding[b])
  {
    forall b | b in Live(p) ensures b in p'.outstanding && Kept(p, p', b) { assert b in Live(p') && p.outstanding[b] == p.outstanding[b]; }
  }

  lemma RestampKeeps(g: T.Config, sizes: seq<nat>, p: Picture, p': Picture, b: Addr)
    requires p in Sound(g, sizes) && b in Live(p) && b in p.headers && p' == p.(headers := p'.headers)
    requires b in p'.headers && p'.headers == p.headers[b := p'.headers[b]]
    ensures p' in Sound(g, sizes)
  {
    forall i | 0 <= i < |sizes| ensures BinHolds(g, sizes[i], p', i) {
      assert BinHolds(g, sizes[i], p, i) && b !in p.lists[i];
    }
  }

  lemma RestampGot(g: T.Config, sizes: seq<nat>, p: Picture, m: Picture, p': Picture, size: nat, alignment: nat, b: Addr)
    requires T.Wf(g) && sizes == T.ClassSizes(g) && m in GotBlock(p, g, sizes, size, alignment, b) && m in LiveKept(p)
    requires p' == m.(headers := p'.headers) && b in m.headers && p'.headers == m.headers[b := m.headers[b].(size := 0)]
    ensures p' in GotBlock(p, g, sizes, size, alignment, b) && p' in LiveKept(p)
  {
    forall c | c in Live(p) && c in Live(p') ensures Kept(p, p', c) { assert p.outstanding[c] == p.outstanding[c] && c in Live(m) && Kept(p, m, c); }
  }

  lemma OneMoreOut(p: Picture, p': Picture, b: Addr, n: nat)
    requires p'.lists == p.lists && p'.outstanding == p.outstanding[b := n] && b !in Cached(p.lists)
    ensures Live(p') == Live(p) + iset{b}
  {
  }

  lemma NoClassIsZero(g: T.Config)
    requires T.Wf(g)
    ensures 0 !in T.ClassSizes(g)
  {
    forall i | 0 <= i < |T.ClassSizes(g)| ensures T.ClassSizes(g)[i] != 0 { T.RoundingIsIdempotent(g, i); }
  }

  /** A header's size class leads back to its own bin. */
  lemma ClassOfHeader(g: T.Config, size: nat)
    requires T.Wf(g) && size in T.ClassSizes(g)
    ensures T.ClassIndex(g, size).Index? && T.ClassIndex(g, size).value < |T.ClassSizes(g)|
    ensures T.ClassSizes(g)[T.ClassIndex(g, size).value] == size
  {
    var i :| 0 <= i < |T.ClassSizes(g)| && T.ClassSizes(g)[i] == size;
    T.RoundingIsIdempotent(g, i);
  }

  lemma OneEntry(g: T.Config, size: nat)
    requires T.Wf(g) && size in T.ClassSizes(g)
    ensures forall i | 0 <= i < |T.ClassSizes(g)| && T.ClassSizes(g)[i] == size :: T.ClassIndex(g, size) == T.Index(i)
  {
    forall i | 0 <= i < |T.ClassSizes(g)| && T.ClassSizes(g)[i] == size ensures T.ClassIndex(g, size) == T.Index(i) {
      T.RoundingIsIdempotent(g, i);
    }
  }

  lemma NotCached(g: T.Config, sizes: seq<nat>, p: Picture, b: Addr)
    requires p in Sound(g, sizes) && b !in p.outstanding
    ensures b !in Cached(p.lists)
  {
    forall i | 0 <= i < |p.lists| ensures b !in p.lists[i] { assert BinHolds(g, sizes[i], p, i); }
  }

  // ---- flush, step by step ----

  /** The frees that flushing bins i, i + 1, ... amounts to. */
  ghost function Homes(lists: seq<seq<Addr>>, sizes: seq<nat>, node: nat, i: nat): seq<Return>
    decreases |lists| - i
  {
    if i >= |lists| || i >= |sizes| then [] else HomesOf(lists[i], node, sizes[i]) + Homes(lists, sizes, node, i + 1)
  }

  ghost function HomesOf(list: seq<Addr>, node: nat, size: nat): seq<Return>
  {
    if list == [] then [] else [Return(list[0], node, size)] + HomesOf(list[1..], node, size)
  }

  lemma {:induction false} NoHomes(lists: seq<seq<Addr>>, sizes: seq<nat>, node: nat, i: nat)
    requires forall l | l in lists :: l == []
    ensures Homes(lists, sizes, node, i) == []
    decreases |lists| - i
  {
    if i < |lists| && i < |sizes| {
      assert lists[i] in lists;
      NoHomes(lists, sizes, node, i + 1);
    }
  }

  lemma {:induction false} HomesAgree(l1: seq<seq<Addr>>, l2: seq<seq<Addr>>, sizes: seq<nat>, node: nat, i: nat)
    requires |l1| == |l2| && forall j | i <= j < |l1| :: l1[j] == l2[j]
    ensures Homes(l1, sizes, node, i) == Homes(l2, sizes, node, i)
    decreases |l1| - i
  {
    if i < |l1| && i < |sizes| { HomesAgree(l1, l2, sizes, node, i + 1); }
  }

  datatype Flushing = Flushing(q: Picture, returned: seq<Return>)

  /** Partway through a flush: bins before i are empty, the frees so far and the frees to come are those of the
      whole cache, and the user's blocks are as they were. */
  ghost function Flushes(p: Picture, sizes: seq<nat>, r: seq<Return>, i: nat): iset<Flushing>
  {
    iset f: Flushing | FlushInv(p, sizes, r, i, f)
  }

  ghost predicate FlushInv(p: Picture, sizes: seq<nat>, r: seq<Return>, i: nat, f: Flushing)
  {
    && i <= |f.q.lists| && |f.q.lists| == |p.lists| && f.q.node == p.node && (forall j | 0 <= j < i :: f.q.lists[j] == [])
    && Live(f.q) == Live(p) && f.q in LiveKept(p)
    && f.returned + Homes(f.q.lists, sizes, p.node, i) == r + Homes(p.lists, sizes, p.node, 0)
  }

  lemma FlushStep(p: Picture, sizes: seq<nat>, r: seq<Return>, q: Picture, ret: seq<Return>, s: Picture, i: nat)
    requires Flushing(q, ret) in Flushes(p, sizes, r, i) && i < |q.lists| && i < |sizes| && q.lists[i] != []
    requires s.lists == q.lists[i := q.lists[i][1..]] && s.node == q.node && Live(s) == Live(q) && s in LiveKept(q)
    ensures Flushing(s, ret + [Return(q.lists[i][0], p.node, sizes[i])]) in Flushes(p, sizes, r, i)
  {
    LiveKeptTwice(p, q, s);
    HomesAgree(q.lists, s.lists, sizes, p.node, i + 1);
    var rest := Homes(q.lists, sizes, p.node, i + 1);
    var x := Return(q.lists[i][0], p.node, sizes[i]);
    assert Homes(q.lists, sizes, p.node, i) == [x] + HomesOf(q.lists[i][1..], p.node, sizes[i]) + rest;
    assert ret + ([x] + HomesOf(q.lists[i][1..], p.node, sizes[i]) + rest) == ret + [x] + (HomesOf(q.lists[i][1..], p.node, sizes[i]) + rest);
  }

  /** What is kept twice is kept, for blocks held all along. */
  lemma LiveKeptTwice(p: Picture, q: Picture, s: Picture)
    requires q in LiveKept(p) && s in LiveKept(q) && forall b | b in Live(p) && b in Live(s) :: b in Live(q)
    ensures s in LiveKept(p)
  {
    forall b | b in Live(p) && b in Live(s) ensures Kept(p, s, b) {
      assert b in Live(q) && p.outstanding[b] == p.outstanding[b] && q.outstanding[b] == q.outstanding[b];
      assert Kept(p, q, b) && Kept(q, s, b);
      forall a | Link(b) <= a < Link(b) + p.outstanding[b] ensures Load(s.words, a) == Load(p.words, a) {
        assert Load(q.words, a) == Load(p.words, a);
      }
    }
  }

  lemma FlushedBin(g: T.Config, sizes: seq<nat>, p: Picture, r: seq<Return>, q: Picture, ret: seq<Return>, i: nat)
    requires q in Sound(g, sizes) && Flushing(q, ret) in Flushes(p, sizes, r, i) && i < |sizes| && q.bins[i].head == NULL
    ensures Flushing(q, ret) in Flushes(p, sizes, r, i + 1)
  {
    assert BinHolds(g, sizes[i], q, i);
    assert Homes(q.lists, sizes, p.node, i) == Homes(q.lists, sizes, p.node, i + 1);
  }

  lemma FlushedAll(p: Picture, sizes: seq<nat>, r: seq<Return>, q: Picture, ret: seq<Return>)
    requires Flushing(q, ret) in Flushes(p, sizes, r, |q.lists|)
    ensures Cached(q.lists) == iset{} && ret == r + Homes(p.lists, sizes, p.node, 0)
    ensures forall b :: b in q.outstanding <==> b in Live(p)
  {
    forall b ensures b !in Cached(q.lists) {}
    forall b ensures b in q.outstanding <==> b in Live(q) {}
  }
}
