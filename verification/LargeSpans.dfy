/** The spans of one LargeObjectAllocator as values: what each operation does to the nested counters and to the
    account of who has which span, for every request, and what holds over every run. */
module LargeSpans {
  import opened Arithmetic
  import opened Lists
  import opened SizeClassSpec
  import opened LargeObjectSpec
  import H = SlabHeap

  datatype CachedSpan = CachedSpan(raw: Addr, size: nat)

  /** count and bytes of the first `count` entries of a fixed array of eight spans. */
  datatype SpanBin = SpanBin(spans: seq<CachedSpan>, count: nat, bytes: nat)

  /** Where a span of this allocator is: behind user pointer u, in slot j of bin i, in the hands of a running
      call, or dropped by a call that raised after it had the span. */
  datatype Whereabouts = InUse(u: Addr) | InBin(i: nat, j: nat) | InTransit | Lost

  /** Everything the allocator's invariant speaks of, as one value; `mapped` is what it got from the OS and has
      not given back, `at` and `live` are history. */
  datatype Picture = Picture(
    node: nat,
    bins: seq<SpanBin>,
    cachedSpans: nat,
    cachedBytes: nat,
    mapped: map<Addr, nat>,
    at: map<Addr, Whereabouts>,
    live: map<Addr, CachedSpan>,
    headers: map<Addr, H.BlockHeader>)

  datatype Limits = Limits(spans: nat, bytes: nat)

  // ---- the invariant ----

  function BinSize(i: nat): nat
  {
    if i < BINS then BIN_SIZES[i] else 0
  }

  ghost predicate BinOk(bin: SpanBin, size: nat)
  {
    && |bin.spans| == SPANS_PER_BIN && bin.count <= SPANS_PER_BIN && bin.bytes == bin.count * size
    && forall j | 0 <= j < bin.count :: bin.spans[j].size == size
  }

  function Counts(bins: seq<SpanBin>): seq<int>
  {
    seq(|bins|, i requires 0 <= i < |bins| => bins[i].count)
  }

  function Bytes(bins: seq<SpanBin>): seq<int>
  {
    seq(|bins|, i requires 0 <= i < |bins| => bins[i].bytes)
  }

  ghost predicate Totals(p: Picture, limits: Limits)
  {
    && p.cachedSpans == Sum(Counts(p.bins)) && p.cachedSpans <= limits.spans
    && p.cachedBytes == Sum(Bytes(p.bins)) && p.cachedBytes <= limits.bytes
  }

  ghost predicate SpansApart(a: Addr, m: nat, b: Addr, n: nat)
  {
    a + m <= b || b + n <= a
  }

  /** Mapped regions lie in the address space, start at a page and do not overlap. */
  ghost predicate Regions(mapped: map<Addr, nat>)
  {
    && (forall r {:trigger mapped[r]} | r in mapped :: 0 < r && 0 < mapped[r] && r + mapped[r] < WORD && r % 16 == 0)
    && (forall r, q {:trigger mapped[r], mapped[q]} | r in mapped && q in mapped && r != q :: SpansApart(r, mapped[r], q, mapped[q]))
  }

  ghost function Separate(): iset<map<Addr, nat>>
  {
    iset mapped: map<Addr, nat> | Regions(mapped)
  }

  function Slot(p: Picture, i: nat, j: nat): Option<CachedSpan>
  {
    if i < |p.bins| && j < p.bins[i].count && j < |p.bins[i].spans| then Some(p.bins[i].spans[j]) else None
  }

  /** The span at r is where `at` says, with the size it was mapped with. */
  ghost predicate FoundAt(p: Picture, transit: Option<CachedSpan>, r: Addr)
    requires r in p.mapped && r in p.at
  {
    match p.at[r]
    case InUse(u) => u in p.live && p.live[u] == CachedSpan(r, p.mapped[r])
    case InBin(i, j) => Slot(p, i, j) == Some(CachedSpan(r, p.mapped[r]))
    case InTransit => transit == Some(CachedSpan(r, p.mapped[r]))
    case Lost => true
  }

  ghost predicate Located(p: Picture, r: Addr, w: Whereabouts)
  {
    r in p.at && p.at[r] == w
  }

  /** The header right below user pointer u lies in the span and describes all of it. */
  ghost predicate Headed(p: Picture, u: Addr)
    requires u in p.live
  {
    && u >= HEADER && u - HEADER in p.headers
    && var h := p.headers[u - HEADER];
       && h.nodeId == p.node && h.sizeClass == 0 && CachedSpan(h.rawPtr, h.totalSize) == p.live[u]
       && h.rawPtr <= u - HEADER && u <= h.rawPtr + h.totalSize
  }

  /** And the payload ends inside it too. */
  ghost predicate PayloadInside(p: Picture, u: Addr)
    requires u in p.live
  {
    u >= HEADER && u - HEADER in p.headers && u + p.headers[u - HEADER].size <= p.live[u].raw + p.live[u].size
  }

  /** Sixteen bins holding spans of their own size, with true totals within the limits. */
  ghost function Shapes(limits: Limits): iset<Picture>
  {
    iset p: Picture | |p.bins| == BINS && (forall i | 0 <= i < BINS :: BinOk(p.bins[i], BinSize(i))) && Totals(p, limits)
  }

  /** Every mapped span is where `at` says. */
  ghost function Found(transit: Option<CachedSpan>): iset<Picture>
  {
    iset p: Picture | p.at.Keys == p.mapped.Keys && (forall r {:trigger p.at[r]} | r in p.mapped :: FoundAt(p, transit, r))
                      && (transit.Some? ==> Located(p, transit.value.raw, InTransit))
  }

  /** Every cached span is mapped, and nowhere else. */
  ghost function Slotted(): iset<Picture>
  {
    iset p: Picture | SlotsLocated(p)
  }

  ghost predicate SlotsLocated(p: Picture)
  {
    forall i: nat, j: nat {:trigger Slot(p, i, j)} | Slot(p, i, j).Some? :: Located(p, Slot(p, i, j).value.raw, InBin(i, j))
  }

  /** Every live pointer has a mapped span to itself. */
  ghost function Lives(): iset<Picture>
  {
    iset p: Picture | forall u {:trigger p.live[u]} | u in p.live :: Located(p, p.live[u].raw, InUse(u)) && Headed(p, u)
  }

  /** The pictures in which every mapped span is accounted for, up to one in transit. */
  ghost function Accounted(limits: Limits, transit: Option<CachedSpan>): iset<Picture>
  {
    iset p: Picture | p in Shapes(limits) && p.mapped in Separate() && p in Found(transit) && p in Slotted() && p in Lives()
  }

  // ---- the steps a span takes ----

  function PopBin(p: Picture, i: nat): Picture
    requires i < |p.bins| && 0 < p.bins[i].count <= |p.bins[i].spans|
    requires p.cachedSpans >= 1 && p.cachedBytes >= p.bins[i].spans[p.bins[i].count - 1].size
    requires p.bins[i].bytes >= p.bins[i].spans[p.bins[i].count - 1].size
  {
    var bin := p.bins[i];
    var span := bin.spans[bin.count - 1];
    p.(bins := p.bins[i := bin.(count := bin.count - 1, bytes := bin.bytes - span.size)],
       cachedSpans := p.cachedSpans - 1, cachedBytes := p.cachedBytes - span.size, at := p.at[span.raw := InTransit])
  }

  lemma PopCounters(limits: Limits, p: Picture, i: nat)
    requires p in Shapes(limits) && i < BINS && p.bins[i].count > 0
    ensures |p.bins| == BINS && p.bins[i].count <= |p.bins[i].spans|
    ensures p.bins[i].spans[p.bins[i].count - 1].size == BinSize(i)
    ensures p.bins[i].bytes >= BinSize(i) && p.cachedSpans >= 1 && p.cachedBytes >= BinSize(i)
  {
    var bin := p.bins[i];
    MulMono(1, bin.count, BinSize(i));
    SumBounds(Counts(p.bins), i);
    SumBounds(Bytes(p.bins), i);
    assert Counts(p.bins)[i] == bin.count && Bytes(p.bins)[i] == bin.bytes;
  }

  lemma BinTotals(p: Picture, i: nat, bin: SpanBin)
    requires i < |p.bins|
    ensures Sum(Counts(p.bins[i := bin])) == Sum(Counts(p.bins)) + bin.count - p.bins[i].count
    ensures Sum(Bytes(p.bins[i := bin])) == Sum(Bytes(p.bins)) + bin.bytes - p.bins[i].bytes
  {
    SumUpdate(Counts(p.bins), Counts(p.bins[i := bin]), i);
    SumUpdate(Bytes(p.bins), Bytes(p.bins[i := bin]), i);
  }

  lemma TimesSucc(n: nat, size: nat)
    ensures (n + 1) * size == n * size + size
  {
  }

  /** acquire_span takes the newest span of a bin. */
  lemma PopKeeps(limits: Limits, p: Picture, i: nat, span: CachedSpan, p': Picture)
    requires p in Accounted(limits, None) && i < BINS && |p.bins| == BINS && 0 < p.bins[i].count <= |p.bins[i].spans|
    requires span == p.bins[i].spans[p.bins[i].count - 1]
    requires p.cachedSpans >= 1 && p.cachedBytes >= span.size && p.bins[i].bytes >= span.size && p' == PopBin(p, i)
    ensures p' in Accounted(limits, Some(span)) && span.size == BinSize(i)
  {
    PopCounters(limits, p, i);
    PopShape(limits, p, i);
    PopFound(p, i, span, p');
    PopSlotted(p, i, span, p');
    LivesStay(p, p', span.raw, InBin(i, p.bins[i].count - 1));
  }

  lemma PopShape(limits: Limits, p: Picture, i: nat)
    requires p in Shapes(limits) && i < BINS && |p.bins| == BINS && 0 < p.bins[i].count <= |p.bins[i].spans|
    requires p.bins[i].spans[p.bins[i].count - 1].size == BinSize(i)
    requires p.cachedSpans >= 1 && p.cachedBytes >= BinSize(i) && p.bins[i].bytes >= BinSize(i)
    ensures PopBin(p, i) in Shapes(limits)
  {
    TimesSucc(p.bins[i].count - 1, BinSize(i));
    BinTotals(p, i, PopBin(p, i).bins[i]);
  }

  lemma PopSlots(p: Picture, i: nat)
    requires i < |p.bins| && 0 < p.bins[i].count <= |p.bins[i].spans|
    requires p.cachedSpans >= 1 && p.cachedBytes >= p.bins[i].spans[p.bins[i].count - 1].size
    requires p.bins[i].bytes >= p.bins[i].spans[p.bins[i].count - 1].size
    ensures forall k: nat, j: nat {:trigger Slot(PopBin(p, i), k, j)} ::
      Slot(PopBin(p, i), k, j) == if k == i && j == p.bins[i].count - 1 then None else Slot(p, k, j)
  {
  }

  lemma PopFound(p: Picture, i: nat, span: CachedSpan, p': Picture)
    requires p in Found(None) && p in Slotted() && i < |p.bins| && 0 < p.bins[i].count <= |p.bins[i].spans|
    requires span == p.bins[i].spans[p.bins[i].count - 1]
    requires p.cachedSpans >= 1 && p.cachedBytes >= span.size && p.bins[i].bytes >= span.size && p' == PopBin(p, i)
    ensures p' in Found(Some(span)) && Located(p, span.raw, InBin(i, p.bins[i].count - 1))
  {
    PopSlots(p, i);
    assert Slot(p, i, p.bins[i].count - 1) == Some(span);
    forall r | r in p'.mapped ensures FoundAt(p', Some(span), r) { assert FoundAt(p, None, r); }
  }

  lemma PopSlotted(p: Picture, i: nat, span: CachedSpan, p': Picture)
    requires p in Slotted() && i < |p.bins| && 0 < p.bins[i].count <= |p.bins[i].spans|
    requires span == p.bins[i].spans[p.bins[i].count - 1]
    requires p.cachedSpans >= 1 && p.cachedBytes >= span.size && p.bins[i].bytes >= span.size && p' == PopBin(p, i)
    ensures p' in Slotted()
  {
    PopSlots(p, i);
    assert Slot(p, i, p.bins[i].count - 1) == Some(span);
    forall k: nat, j: nat | Slot(p', k, j).Some? ensures Located(p', Slot(p', k, j).value.raw, InBin(k, j)) {
      assert Located(p, Slot(p, k, j).value.raw, InBin(k, j));
    }
  }

  /** Live spans are unaffected when only a span that was not in use moves. */
  lemma LivesStay(p: Picture, p': Picture, r: Addr, was: Whereabouts)
    requires p in Lives() && Located(p, r, was) && !was.InUse?
    requires p'.headers == p.headers && p'.live == p.live && p'.node == p.node
    requires forall q | q in p.at && q != r :: q in p'.at && p'.at[q] == p.at[q]
    ensures p' in Lives()
  {
    forall u | u in p'.live ensures Located(p', p'.live[u].raw, InUse(u)) && Headed(p', u) {
      assert p.live[u] == p.live[u];
      assert Located(p, p.live[u].raw, InUse(u)) && Headed(p, u);
    }
  }

  /** Cached spans are unaffected when only a span that was not cached moves. */
  lemma SlottedStays(p: Picture, p': Picture, r: Addr)
    requires p in Slotted() && p'.bins == p.bins && (r in p.at ==> !p.at[r].InBin?)
    requires forall q | q in p.at && q != r :: q in p'.at && p'.at[q] == p.at[q]
    ensures p' in Slotted()
  {
    Slots(p, p');
    forall k: nat, j: nat | Slot(p', k, j).Some? ensures Located(p', Slot(p', k, j).value.raw, InBin(k, j)) {
      assert Slot(p', k, j) == Slot(p, k, j);
      assert Located(p, Slot(p, k, j).value.raw, InBin(k, j));
    }
  }

  lemma Slots(p: Picture, p': Picture)
    requires p'.bins == p.bins
    ensures forall i: nat, j: nat {:trigger Slot(p', i, j)} :: Slot(p', i, j) == Slot(p, i, j)
  {
  }

  function PushBin(p: Picture, i: nat, span: CachedSpan): Picture
    requires i < |p.bins| && p.bins[i].count < |p.bins[i].spans|
  {
    var bin := p.bins[i];
    p.(bins := p.bins[i := SpanBin(bin.spans[bin.count := span], bin.count + 1, bin.bytes + span.size)],
       cachedSpans := p.cachedSpans + 1, cachedBytes := p.cachedBytes + span.size, at := p.at[span.raw := InBin(i, bin.count)])
  }

  /** release_to_cache stores a span of the bin's size while the limits allow. */
  lemma PushKeeps(limits: Limits, p: Picture, i: nat, span: CachedSpan)
    requires p in Accounted(limits, Some(span)) && i < BINS && p.bins[i].count < SPANS_PER_BIN
    requires span.size == BinSize(i) && p.cachedSpans < limits.spans && p.cachedBytes + span.size <= limits.bytes
    ensures |p.bins| == BINS && |p.bins[i].spans| == SPANS_PER_BIN
    ensures PushBin(p, i, span) in Accounted(limits, None)
  {
    PushShape(limits, p, i, span);
    PushFound(p, i, span, PushBin(p, i, span));
    PushSlotted(p, i, span, PushBin(p, i, span));
    LivesStay(p, PushBin(p, i, span), span.raw, InTransit);
  }

  lemma PushShape(limits: Limits, p: Picture, i: nat, span: CachedSpan)
    requires p in Shapes(limits) && i < BINS && p.bins[i].count < SPANS_PER_BIN
    requires span.size == BinSize(i) && p.cachedSpans < limits.spans && p.cachedBytes + span.size <= limits.bytes
    ensures |p.bins| == BINS && |p.bins[i].spans| == SPANS_PER_BIN
    ensures PushBin(p, i, span) in Shapes(limits)
  {
    TimesSucc(p.bins[i].count, BinSize(i));
    BinTotals(p, i, PushBin(p, i, span).bins[i]);
  }

  lemma PushSlots(p: Picture, i: nat, span: CachedSpan)
    requires i < |p.bins| && p.bins[i].count < |p.bins[i].spans|
    ensures forall k: nat, j: nat {:trigger Slot(PushBin(p, i, span), k, j)} ::
      Slot(PushBin(p, i, span), k, j) == if k == i && j == p.bins[i].count then Some(span) else Slot(p, k, j)
    ensures Slot(p, i, p.bins[i].count) == None
  {
  }

  lemma PushFound(p: Picture, i: nat, span: CachedSpan, p': Picture)
    requires p in Found(Some(span)) && i < |p.bins| && p.bins[i].count < |p.bins[i].spans| && p' == PushBin(p, i, span)
    ensures p' in Found(None) && Located(p, span.raw, InTransit)
  {
    PushSlots(p, i, span);
    assert FoundAt(p, Some(span), span.raw);
    assert Slot(p', i, p.bins[i].count) == Some(span);
    forall r | r in p'.mapped ensures FoundAt(p', None, r) { assert FoundAt(p, Some(span), r); }
  }

  lemma PushSlotted(p: Picture, i: nat, span: CachedSpan, p': Picture)
    requires p in Slotted() && Located(p, span.raw, InTransit)
    requires i < |p.bins| && p.bins[i].count < |p.bins[i].spans| && p' == PushBin(p, i, span)
    ensures p' in Slotted()
  {
    PushSlots(p, i, span);
    forall k: nat, j: nat | Slot(p', k, j).Some? ensures Located(p', Slot(p', k, j).value.raw, InBin(k, j)) {
      if k != i || j != p.bins[i].count { assert Located(p, Slot(p, k, j).value.raw, InBin(k, j)); }
    }
  }

  /** The OS maps a region apart from all mapped ones, on a page, inside the address space. */
  ghost predicate FreshSpan(mapped: map<Addr, nat>, size: nat, os: Option<Addr>)
  {
    os.Some? ==>
      && 0 < os.value && os.value % 16 == 0 && os.value + size < WORD
      && forall r {:trigger mapped[r]} | r in mapped :: SpansApart(r, mapped[r], os.value, size)
  }

  lemma MapSeparate(mapped: map<Addr, nat>, raw: Addr, size: nat)
    requires mapped in Separate() && FreshSpan(mapped, size, Some(raw)) && size > 0
    ensures raw !in mapped && mapped[raw := size] in Separate()
  {
    assert raw in mapped ==> SpansApart(raw, mapped[raw], raw, size);
  }

  lemma UnmapSeparate(mapped: map<Addr, nat>, raw: Addr)
    requires mapped in Separate()
    ensures mapped - {raw} in Separate()
  {
  }

  /** The picture with a new region in transit. */
  function MapSpan(p: Picture, raw: Addr, size: nat): Picture
  {
    p.(mapped := p.mapped[raw := size], at := p.at[raw := InTransit])
  }

  lemma MapKeeps(limits: Limits, p: Picture, raw: Addr, size: nat)
    requires p in Accounted(limits, None) && FreshSpan(p.mapped, size, Some(raw)) && size > 0
    ensures raw !in p.mapped && MapSpan(p, raw, size) in Accounted(limits, Some(CachedSpan(raw, size)))
  {
    MapSeparate(p.mapped, raw, size);
    assert raw !in p.at;
    SlottedStays(p, MapSpan(p, raw, size), raw);
    MapFound(p, raw, size);
    MapLives(p, MapSpan(p, raw, size), raw);
  }

  lemma MapFound(p: Picture, raw: Addr, size: nat)
    requires p in Found(None) && raw !in p.at
    ensures MapSpan(p, raw, size) in Found(Some(CachedSpan(raw, size)))
  {
    var p' := MapSpan(p, raw, size);
    Slots(p, p');
    forall q | q in p'.mapped ensures FoundAt(p', Some(CachedSpan(raw, size)), q) {
      if q != raw { assert FoundAt(p, None, q); }
    }
  }

  lemma MapLives(p: Picture, p': Picture, raw: Addr)
    requires p in Lives() && raw !in p.at && p'.live == p.live && p'.headers == p.headers && p'.node == p.node && p'.at == p.at[raw := InTransit]
    ensures p' in Lives()
  {
    forall u | u in p'.live ensures Located(p', p'.live[u].raw, InUse(u)) && Headed(p', u) {
      assert Located(p, p.live[u].raw, InUse(u)) && Headed(p, u);
    }
  }

  /** When only the span at r moves, every other span is still where `at` says. */
  lemma FoundMoves(p: Picture, p': Picture, transit: Option<CachedSpan>, transit': Option<CachedSpan>, r: Addr)
    requires p in Found(transit) && p'.bins == p.bins && p'.at.Keys == p'.mapped.Keys
    requires forall q | q in p'.mapped && q != r :: q in p.mapped && p'.mapped[q] == p.mapped[q] && p'.at[q] == p.at[q]
    requires forall u | u in p.live && p.live[u].raw != r :: u in p'.live && p'.live[u] == p.live[u]
    requires transit.Some? ==> transit.value.raw == r
    requires transit'.Some? ==> Located(p', transit'.value.raw, InTransit)
    requires r in p'.mapped ==> FoundAt(p', transit', r)
    ensures p' in Found(transit')
  {
    Slots(p, p');
    forall q | q in p'.mapped ensures FoundAt(p', transit', q) {
      if q != r { assert FoundAt(p, transit, q); }
    }
  }

  /** The picture without the region at raw. */
  function UnmapSpan(p: Picture, raw: Addr): Picture
  {
    p.(mapped := p.mapped - {raw}, at := p.at - {raw})
  }

  lemma UnmapKeeps(limits: Limits, p: Picture, span: CachedSpan)
    requires p in Accounted(limits, Some(span))
    ensures span.raw in p.mapped && p.mapped[span.raw] == span.size
    ensures UnmapSpan(p, span.raw) in Accounted(limits, None)
  {
    var p' := UnmapSpan(p, span.raw);
    UnmapSeparate(p.mapped, span.raw);
    assert FoundAt(p, Some(span), span.raw);
    SlottedStays(p, p', span.raw);
    FoundMoves(p, p', Some(span), None, span.raw);
    LivesStay(p, p', span.raw, InTransit);
  }

  /** Where the header of user pointer u is, in machine arithmetic. */
  function HeaderAt(u: Addr): Addr
  {
    (u + WORD - HEADER) % WORD
  }

  lemma HeaderBelow(u: Addr)
    requires HEADER <= u < WORD
    ensures HeaderAt(u) == u - HEADER
  {
    ModPastWord(u + WORD - HEADER);
  }

  /** The picture once user pointer u with header h stands for the span. */
  function PutLive(p: Picture, u: Addr, span: CachedSpan, h: H.BlockHeader): Picture
  {
    p.(headers := p.headers[HeaderAt(u) := h], live := p.live[u := span], at := p.at[span.raw := InUse(u)])
  }

  /** A pointer placed inside a span nobody else has is new, and its header overlaps no live header. */
  lemma PlaceKeeps(limits: Limits, p: Picture, u: Addr, span: CachedSpan, h: H.BlockHeader)
    requires p in Accounted(limits, Some(span)) && span.raw + HEADER <= u <= span.raw + span.size && u < WORD
    requires h.nodeId == p.node && h.sizeClass == 0 && h.rawPtr == span.raw && h.totalSize == span.size
    ensures u !in p.live && PutLive(p, u, span, h) in Accounted(limits, None)
  {
    var p' := PutLive(p, u, span, h);
    assert FoundAt(p, Some(span), span.raw);
    NoneLiveInside(limits, p, span, u);
    SlottedStays(p, p', span.raw);
    FoundMoves(p, p', Some(span), None, span.raw);
    PlaceLives(p, u, span, h);
  }

  lemma NoneLiveInside(limits: Limits, p: Picture, span: CachedSpan, u: Addr)
    requires p in Accounted(limits, Some(span)) && span.raw + HEADER <= u <= span.raw + span.size
    ensures forall v | v in p.live :: v != u && p.live[v].raw != span.raw
  {
    forall v | v in p.live ensures v != u && p.live[v].raw != span.raw { LiveElsewhere(limits, p, span, v, u); }
  }

  lemma PlaceLives(p: Picture, u: Addr, span: CachedSpan, h: H.BlockHeader)
    requires p in Lives() && span.raw + HEADER <= u <= span.raw + span.size && u < WORD
    requires h.nodeId == p.node && h.sizeClass == 0 && h.rawPtr == span.raw && h.totalSize == span.size
    requires forall v | v in p.live :: v != u && p.live[v].raw != span.raw
    ensures PutLive(p, u, span, h) in Lives()
  {
    var p' := PutLive(p, u, span, h);
    HeaderBelow(u);
    forall v | v in p'.live ensures Located(p', p'.live[v].raw, InUse(v)) && Headed(p', v) {
      if v != u { assert Located(p, p.live[v].raw, InUse(v)) && Headed(p, v); }
    }
  }

  /** A span whose placement failed is dropped: mapped for good, in nobody's hands. */
  function Lose(p: Picture, span: CachedSpan): Picture
  {
    p.(at := p.at[span.raw := Lost])
  }

  lemma LoseKeeps(limits: Limits, p: Picture, span: CachedSpan)
    requires p in Accounted(limits, Some(span))
    ensures Lose(p, span) in Accounted(limits, None)
  {
    var p' := Lose(p, span);
    SlottedStays(p, p', span.raw);
    FoundMoves(p, p', Some(span), None, span.raw);
    LivesStay(p, p', span.raw, InTransit);
  }

  lemma LiveElsewhere(limits: Limits, p: Picture, span: CachedSpan, v: Addr, u: Addr)
    requires p in Accounted(limits, Some(span)) && v in p.live
    requires span.raw + HEADER <= u && u <= span.raw + span.size
    ensures v != u && p.live[v].raw != span.raw
  {
    assert Located(p, p.live[v].raw, InUse(v)) && Headed(p, v);
    assert FoundAt(p, Some(span), p.live[v].raw) && FoundAt(p, Some(span), span.raw);
    assert Regions(p.mapped);
    assert SpansApart(p.live[v].raw, p.mapped[p.live[v].raw], span.raw, p.mapped[span.raw]);
  }

  /** The picture once the span of u, known to be at raw, is taken back from the user. */
  function TakeBack(p: Picture, u: Addr, raw: Addr): Picture
  {
    p.(live := p.live - {u}, at := p.at[raw := InTransit])
  }

  lemma TakeBackKeeps(limits: Limits, p: Picture, u: Addr)
    requires p in Accounted(limits, None) && u in p.live
    ensures Headed(p, u) && TakeBack(p, u, p.live[u].raw) in Accounted(limits, Some(p.live[u]))
  {
    var span := p.live[u];
    var p' := TakeBack(p, u, span.raw);
    assert Located(p, span.raw, InUse(u)) && Headed(p, u);
    assert FoundAt(p, None, span.raw);
    SlottedStays(p, p', span.raw);
    FoundMoves(p, p', None, Some(span), span.raw);
    TakeBackLives(p, p', u);
  }

  lemma TakeBackLives(p: Picture, p': Picture, u: Addr)
    requires p in Lives() && u in p.live && p'.live == p.live - {u} && p'.headers == p.headers && p'.node == p.node
    requires p'.at == p.at[p.live[u].raw := InTransit]
    ensures p' in Lives()
  {
    assert Located(p, p.live[u].raw, InUse(u));
    forall v | v in p'.live ensures Located(p', p'.live[v].raw, InUse(v)) && Headed(p', v) {
      assert Located(p, p.live[v].raw, InUse(v)) && Headed(p, v);
    }
  }

  // ---- the bounded upward search ----

  /** The first bin from i to `last` that has a span. */
  function FirstStocked(bins: seq<SpanBin>, i: nat, last: nat): (r: BinIndex)
    requires last < |bins|
    ensures r.Bin? ==> i <= r.index <= last && bins[r.index].count > 0 && forall k | i <= k < r.index :: bins[k].count == 0
    ensures r.NoBin? ==> forall k | i <= k <= last :: bins[k].count == 0
    decreases last + 1 - i
  {
    if i > last then NoBin else if bins[i].count > 0 then Bin(i) else FirstStocked(bins, i + 1, last)
  }

  function LastBin(i: nat): nat
  {
    if i + SEARCH_LIMIT < BINS - 1 then i + SEARCH_LIMIT else BINS - 1
  }

  /** The bin acquire_span(size) takes a span from, if any. */
  function Reusable(bins: seq<SpanBin>, size: nat): BinIndex
    requires |bins| == BINS
  {
    match BinIndexFor(size)
    case NoBin => NoBin
    case Bin(i) => FirstStocked(bins, i, LastBin(i))
  }

  /** acquire_span's result: the picture with the span in transit. */
  datatype Acquisition = Acquisition(p: Picture, span: Option<CachedSpan>)

  predicate CanPop(p: Picture, i: nat)
  {
    && i < |p.bins| && 0 < p.bins[i].count <= |p.bins[i].spans|
    && var span := p.bins[i].spans[p.bins[i].count - 1];
       p.cachedSpans >= 1 && p.cachedBytes >= span.size && p.bins[i].bytes >= span.size
  }

  /** acquire_span: the newest span of the first stocked bin in the window, else a new mapping of exactly the
      class; nothing when the OS refuses. */
  function Acquire(p: Picture, size: nat, os: Option<Addr>): Acquisition
    requires |p.bins| == BINS
  {
    match Reusable(p.bins, size)
    case Bin(i) => if CanPop(p, i) then Acquisition(PopBin(p, i), Some(p.bins[i].spans[p.bins[i].count - 1])) else Acquisition(p, None)
    case NoBin => if os.None? then Acquisition(p, None) else Acquisition(MapSpan(p, os.value, size), Some(CachedSpan(os.value, size)))
  }

  lemma ReusableBin(bins: seq<SpanBin>, size: nat)
    requires |bins| == BINS && Reusable(bins, size).Bin?
    ensures Reusable(bins, size).index < BINS && bins[Reusable(bins, size).index].count > 0
    ensures size <= BinSize(Reusable(bins, size).index) <= 4 * size
  {
    BinIndexExact(size);
    ReuseWithinFour(BinIndexFor(size).index, Reusable(bins, size).index);
  }

  /** Acquiring keeps the account, with the span in transit; it fails exactly when there is nothing to reuse
      and the OS refuses; a reused span is the class or up to four times it, a new one is the class. */
  lemma AcquireKeeps(limits: Limits, p: Picture, size: nat, os: Option<Addr>)
    requires p in Accounted(limits, None) && size > 0 && FreshSpan(p.mapped, size, os)
    ensures |p.bins| == BINS
    ensures var a := Acquire(p, size, os);
      && a.p in Accounted(limits, a.span) && a.p.live == p.live && a.p.headers == p.headers && a.p.node == p.node
      && (Reusable(p.bins, size).Bin? ==> CanPop(p, Reusable(p.bins, size).index))
      && (a.span.None? <==> os.None? && Reusable(p.bins, size).NoBin?) && (a.span.None? ==> a.p == p)
      && (a.span.Some? ==> size <= a.span.value.size <= 4 * size)
      && (a.span.Some? ==> a.span.value.raw !in p.mapped || (a.span.value.raw in p.at && p.at[a.span.value.raw].InBin?))
  {
    match Reusable(p.bins, size)
    case Bin(i) =>
      ReusableBin(p.bins, size);
      ReuseKeeps(limits, p, i);
    case NoBin =>
      if os.Some? { MapKeeps(limits, p, os.value, size); }
  }

  lemma ReuseKeeps(limits: Limits, p: Picture, i: nat)
    requires p in Accounted(limits, None) && i < BINS && |p.bins| == BINS && p.bins[i].count > 0
    ensures CanPop(p, i)
    ensures var span := p.bins[i].spans[p.bins[i].count - 1];
      && PopBin(p, i) in Accounted(limits, Some(span)) && span.size == BinSize(i) && Located(p, span.raw, InBin(i, p.bins[i].count - 1))
  {
    PopCounters(limits, p, i);
    var span := p.bins[i].spans[p.bins[i].count - 1];
    PopKeeps(limits, p, i, span, PopBin(p, i));
    PopFound(p, i, span, PopBin(p, i));
  }

  /** Whether release_to_cache keeps a span. */
  predicate Accepts(bins: seq<SpanBin>, cachedSpans: nat, cachedBytes: nat, limits: Limits, size: nat)
    requires |bins| == BINS
  {
    match BinIndexFor(size)
    case NoBin => false
    case Bin(i) => i < BINS && bins[i].count < SPANS_PER_BIN && cachedSpans < limits.spans && cachedBytes + size <= limits.bytes
  }

  lemma AcceptsExactly(bins: seq<SpanBin>, cachedSpans: nat, cachedBytes: nat, limits: Limits, size: nat)
    requires |bins| == BINS
    ensures Accepts(bins, cachedSpans, cachedBytes, limits, size) ==> size in BIN_SIZES
    ensures forall i | 0 <= i < 16 && BIN_SIZES[i] == size ::
              Accepts(bins, cachedSpans, cachedBytes, limits, size) <==> bins[i].count < 8 && cachedSpans < limits.spans && cachedBytes + size <= limits.bytes
  {
    BinIndexExact(size);
  }

  // ---- whole operations ----

  /** How allocate ends: refused by its guard, without memory, with a span it could not place, or with user
      pointer u in a span. The first three are bad_alloc. */
  datatype Outcome = Refused | NoMemory | Unplaced(span: CachedSpan) | Got(u: Addr, span: CachedSpan)
  datatype Result = Result(p: Picture, outcome: Outcome)

  /** allocate_from_span on the span in transit. */
  function PlaceStep(p: Picture, size: nat, alignment: nat, span: CachedSpan): Result
    requires alignment < WORD
  {
    if PlaceFails(size, alignment, span.size, span.raw) then Result(Lose(p, span), Unplaced(span))
    else
      var u := Place(alignment, span.raw);
      Result(PutLive(p, u, span, H.BlockHeader(p.node, 0, size, span.raw, span.size)), Got(u, span))
  }

  /** LargeObjectAllocator::allocate. */
  function AllocateStep(p: Picture, ps: nat, size: nat, alignment: nat, os: Option<Addr>): Result
    requires |p.bins| == BINS && size < WORD && alignment < WORD && ps < WORD
  {
    var align := EffectiveAlignment(alignment);
    if !GuardPasses(size, align) then Result(p, Refused)
    else
      var a := Acquire(p, SpanSize(size, alignment, ps), os);
      if a.span.None? then Result(a.p, NoMemory) else PlaceStep(a.p, size, align, a.span.value)
  }

  /** The span goes to its bin, or back to the OS when the bin or the limits are full. */
  function ReturnStep(p: Picture, limits: Limits, span: CachedSpan): Picture
    requires |p.bins| == BINS
  {
    if Accepts(p.bins, p.cachedSpans, p.cachedBytes, limits, span.size) && CanPush(p, span.size)
    then PushBin(p, BinIndexFor(span.size).index, span) else UnmapSpan(p, span.raw)
  }

  predicate CanPush(p: Picture, size: nat)
  {
    var b := BinIndexFor(size);
    b.Bin? && b.index < |p.bins| && p.bins[b.index].count < |p.bins[b.index].spans|
  }

  /** LargeObjectAllocator::deallocate of a pointer that is not null: it goes by what the header says. */
  function DeallocateStep(p: Picture, limits: Limits, u: Addr): Picture
    requires |p.bins| == BINS && HeaderAt(u) in p.headers
  {
    var h := p.headers[HeaderAt(u)];
    ReturnStep(TakeBack(p, u, h.rawPtr), limits, CachedSpan(h.rawPtr, h.totalSize))
  }

  /** The pointer, and so the header, is outside the span it stands for. */
  predicate Strays(r: Result)
  {
    r.outcome.Got? && !(r.outcome.span.raw + HEADER <= r.outcome.u <= r.outcome.span.raw + r.outcome.span.size)
  }

  /** The pointer is aligned and in a new place, header and payload inside a span that was cached or new and is
      at most four times the class. */
  ghost predicate WellServed(p: Picture, r: Result, size: nat, alignment: nat, spanSize: nat)
  {
    && r.outcome.Got? && alignment > 0 && r.outcome.u % alignment == 0 && r.outcome.u >= HEADER
    && var u, span := r.outcome.u, r.outcome.span;
       && u !in p.live && r.p.live == p.live[u := span]
       && span.raw + HEADER <= u && u + size <= span.raw + span.size && spanSize <= span.size <= 4 * spanSize
       && r.p.headers == p.headers[u - HEADER := H.BlockHeader(p.node, 0, size, span.raw, span.size)]
       && (span.raw !in p.mapped || (span.raw in p.at && p.at[span.raw].InBin?))
  }

  ghost function WellServeds(p: Picture, size: nat, alignment: nat, spanSize: nat): iset<Result>
  {
    iset r: Result | WellServed(p, r, size, alignment, spanSize)
  }

  /** Past the guard, allocate is acquire_span and, if that found a span, allocate_from_span. */
  lemma AllocateIs(p: Picture, ps: nat, size: nat, alignment: nat, os: Option<Addr>, a: Acquisition)
    requires |p.bins| == BINS && size < WORD && alignment < WORD && ps < WORD && GuardPasses(size, EffectiveAlignment(alignment))
    requires a == Acquire(p, SpanSize(size, alignment, ps), os)
    ensures AllocateStep(p, ps, size, alignment, os) ==
            if a.span.None? then Result(a.p, NoMemory) else PlaceStep(a.p, size, EffectiveAlignment(alignment), a.span.value)
  {
  }

  // ---- what every operation keeps ----

  lemma PlaceStepKeeps(limits: Limits, p: Picture, size: nat, alignment: nat, span: CachedSpan)
    requires p in Accounted(limits, Some(span)) && alignment < WORD
    requires !Strays(PlaceStep(p, size, alignment, span))
    ensures PlaceStep(p, size, alignment, span).p in Accounted(limits, None)
  {
    if PlaceFails(size, alignment, span.size, span.raw) {
      LoseKeeps(limits, p, span);
    } else {
      PlaceKeeps(limits, p, Place(alignment, span.raw), span, H.BlockHeader(p.node, 0, size, span.raw, span.size));
    }
  }

  /** Whatever the request, allocate keeps every span accounted for, unless it wrote a header outside its span. */
  lemma AllocateKeeps(limits: Limits, p: Picture, ps: nat, size: nat, alignment: nat, os: Option<Addr>)
    requires p in Accounted(limits, None) && IsPageSize(ps) && size < WORD && alignment < WORD
    requires GuardPasses(size, EffectiveAlignment(alignment)) ==> FreshSpan(p.mapped, SpanSize(size, alignment, ps), os)
    ensures |p.bins| == BINS
    ensures !Strays(AllocateStep(p, ps, size, alignment, os)) ==> AllocateStep(p, ps, size, alignment, os).p in Accounted(limits, None)
  {
    var align := EffectiveAlignment(alignment);
    if GuardPasses(size, align) {
      var spanSize := SpanSize(size, alignment, ps);
      SpanPositive(Total(size, align), ps);
      AcquireKeeps(limits, p, spanSize, os);
      var a := Acquire(p, spanSize, os);
      if a.span.Some? && !Strays(PlaceStep(a.p, size, align, a.span.value)) { PlaceStepKeeps(limits, a.p, size, align, a.span.value); }
    }
  }

  lemma ReturnKeeps(limits: Limits, p: Picture, span: CachedSpan)
    requires p in Accounted(limits, Some(span))
    ensures |p.bins| == BINS && ReturnStep(p, limits, span) in Accounted(limits, None)
    ensures Accepts(p.bins, p.cachedSpans, p.cachedBytes, limits, span.size) ==> CanPush(p, span.size)
  {
    BinIndexExact(span.size);
    if Accepts(p.bins, p.cachedSpans, p.cachedBytes, limits, span.size) {
      var i := BinIndexFor(span.size).index;
      assert BinOk(p.bins[i], BinSize(i));
      PushKeeps(limits, p, i, span);
    } else {
      UnmapKeeps(limits, p, span);
    }
  }

  /** deallocate of a live pointer takes back exactly its span. */
  lemma DeallocateKeeps(limits: Limits, p: Picture, u: Addr)
    requires p in Accounted(limits, None) && u in p.live && u < WORD
    ensures |p.bins| == BINS && HeaderAt(u) in p.headers && HEADER <= u && HeaderAt(u) == u - HEADER
    ensures p.headers[HeaderAt(u)].rawPtr == p.live[u].raw && p.headers[HeaderAt(u)].totalSize == p.live[u].size
    ensures DeallocateStep(p, limits, u) in Accounted(limits, None)
    ensures DeallocateStep(p, limits, u).live == p.live - {u}
    ensures p.live[u].raw in p.mapped && p.mapped[p.live[u].raw] == p.live[u].size
  {
    TakeBackKeeps(limits, p, u);
    LiveFacts(limits, p, u);
    HeaderBelow(u);
    ReturnKeeps(limits, TakeBack(p, u, p.live[u].raw), p.live[u]);
    DeallocateIs(p, limits, u, p.live[u]);
  }

  lemma DeallocateIs(p: Picture, limits: Limits, u: Addr, span: CachedSpan)
    requires |p.bins| == BINS && HeaderAt(u) in p.headers
    requires p.headers[HeaderAt(u)].rawPtr == span.raw && p.headers[HeaderAt(u)].totalSize == span.size
    ensures DeallocateStep(p, limits, u) == ReturnStep(TakeBack(p, u, span.raw), limits, span)
    ensures DeallocateStep(p, limits, u).live == p.live - {u}
  {
  }

  /** What the account says of a live pointer. */
  lemma LiveFacts(limits: Limits, p: Picture, u: Addr)
    requires p in Accounted(limits, None) && u in p.live
    ensures Headed(p, u) && Located(p, p.live[u].raw, InUse(u))
    ensures p.live[u].raw in p.mapped && p.mapped[p.live[u].raw] == p.live[u].size
  {
    assert Located(p, p.live[u].raw, InUse(u));
    assert FoundAt(p, None, p.live[u].raw);
  }

  /** Bins, counts and limits survive every allocate, whatever the request and wherever the header went. */
  lemma AllocateKeepsShapes(limits: Limits, p: Picture, ps: nat, size: nat, alignment: nat, os: Option<Addr>)
    requires p in Shapes(limits) && size < WORD && alignment < WORD && ps < WORD
    ensures |p.bins| == BINS && AllocateStep(p, ps, size, alignment, os).p in Shapes(limits)
  {
    var align := EffectiveAlignment(alignment);
    if GuardPasses(size, align) {
      var spanSize := SpanSize(size, alignment, ps);
      if Reusable(p.bins, spanSize).Bin? {
        ReusableBin(p.bins, spanSize);
        PopCounters(limits, p, Reusable(p.bins, spanSize).index);
        PopShape(limits, p, Reusable(p.bins, spanSize).index);
      }
      var a := Acquire(p, spanSize, os);
      assert a.p in Shapes(limits);
      if a.span.Some? { PlaceShapes(limits, a.p, size, align, a.span.value); }
    }
  }

  lemma PlaceShapes(limits: Limits, p: Picture, size: nat, alignment: nat, span: CachedSpan)
    requires p in Shapes(limits) && alignment < WORD
    ensures PlaceStep(p, size, alignment, span).p in Shapes(limits)
  {
  }

  /** And every deallocate, whatever the header it reads says. */
  lemma DeallocateKeepsShapes(limits: Limits, p: Picture, u: Addr)
    requires p in Shapes(limits) && HeaderAt(u) in p.headers
    ensures |p.bins| == BINS && DeallocateStep(p, limits, u) in Shapes(limits)
  {
    var h := p.headers[HeaderAt(u)];
    BinIndexExact(h.totalSize);
    var q := TakeBack(p, u, h.rawPtr);
    if Accepts(q.bins, q.cachedSpans, q.cachedBytes, limits, h.totalSize) && CanPush(q, h.totalSize) {
      PushShape(limits, q, BinIndexFor(h.totalSize).index, CachedSpan(h.rawPtr, h.totalSize));
    }
  }

  // ---- what becomes of a request ----

  /** As long as rounding the total to pages stays a word, a span that was acquired is well placed in: nothing
      is lost, nothing strays, and bad_alloc comes only from the guard or from the OS with nothing to reuse. */
  lemma UnwrappedIsServed(limits: Limits, p: Picture, ps: nat, size: nat, alignment: nat, os: Option<Addr>)
    requires p in Accounted(limits, None) && IsPageSize(ps) && size < WORD && alignment < WORD && Unwrapped(size, alignment, ps)
    requires FreshSpan(p.mapped, SpanSize(size, alignment, ps), os)
    ensures |p.bins| == BINS
    ensures var r := AllocateStep(p, ps, size, alignment, os);
      && (r.outcome.NoMemory? <==> os.None? && Reusable(p.bins, SpanSize(size, alignment, ps)).NoBin?)
      && (r.outcome.NoMemory? ==> r.p == p)
      && (!r.outcome.NoMemory? ==> r in WellServeds(p, size, EffectiveAlignment(alignment), SpanSize(size, alignment, ps)))
      && !Strays(r)
  {
    var align, spanSize := EffectiveAlignment(alignment), SpanSize(size, alignment, ps);
    SpanForTotal(Total(size, align), ps);
    AcquireKeeps(limits, p, spanSize, os);
    var a := Acquire(p, spanSize, os);
    AllocateIs(p, ps, size, alignment, os, a);
    if a.span.Some? { PlacedWell(limits, p, a.p, size, align, spanSize, a.span.value); }
  }

  lemma PlacedWell(limits: Limits, p: Picture, q: Picture, size: nat, align: nat, spanSize: nat, span: CachedSpan)
    requires q in Accounted(limits, Some(span)) && 0 < align < WORD && Total(size, align) <= spanSize <= span.size <= 4 * spanSize
    requires q.live == p.live && q.headers == p.headers && q.node == p.node
    requires span.raw !in p.mapped || (span.raw in p.at && p.at[span.raw].InBin?)
    ensures PlaceStep(q, size, align, span) in WellServeds(p, size, align, spanSize)
    ensures PlaceStep(q, size, align, span).outcome.Got? && !Strays(PlaceStep(q, size, align, span))
  {
    SpanInSpace(limits, q, span);
    PlacementFits(size, align, span.size, span.raw);
    NoneLiveInside(limits, q, span, Place(align, span.raw));
    PlacedAt(q, size, align, span, Place(align, span.raw));
  }

  lemma PlacedAt(q: Picture, size: nat, align: nat, span: CachedSpan, u: Addr)
    requires align < WORD && !PlaceFails(size, align, span.size, span.raw) && u == Place(align, span.raw) && u >= HEADER
    ensures PlaceStep(q, size, align, span) ==
            Result(q.(headers := q.headers[u - HEADER := H.BlockHeader(q.node, 0, size, span.raw, span.size)],
                      live := q.live[u := span], at := q.at[span.raw := InUse(u)]), Got(u, span))
  {
    HeaderBelow(u);
  }

  /** And only then: once the rounding wraps, the span that was acquired is lost, or the header strays, or the
      payload overruns it. */
  lemma WrappedIsNeverServed(limits: Limits, p: Picture, ps: nat, size: nat, alignment: nat, os: Option<Addr>)
    requires p in Accounted(limits, None) && IsPageSize(ps) && 16 * ps <= WORD && size < WORD && alignment < WORD
    requires GuardPasses(size, EffectiveAlignment(alignment)) && !Unwrapped(size, alignment, ps)
    requires FreshSpan(p.mapped, SpanSize(size, alignment, ps), os)
    ensures |p.bins| == BINS
    ensures var r := AllocateStep(p, ps, size, alignment, os);
      !r.outcome.Got? || Strays(r) || r.outcome.u + size > r.outcome.span.raw + r.outcome.span.size
  {
    var align, spanSize := EffectiveAlignment(alignment), SpanSize(size, alignment, ps);
    WrappedClass(Total(size, align), ps);
    AcquireKeeps(limits, p, spanSize, os);
    var a := Acquire(p, spanSize, os);
    AllocateIs(p, ps, size, alignment, os, a);
    if a.span.Some? {
      SpanInSpace(limits, a.p, a.span.value);
      WrappedNeverFits(size, align, ps, a.span.value.size, a.span.value.raw);
      NeverWell(a.p, size, align, a.span.value);
    }
  }

  lemma NeverWell(q: Picture, size: nat, align: nat, span: CachedSpan)
    requires align < WORD && (Place(align, span.raw) < span.raw + HEADER || Place(align, span.raw) + size > span.raw + span.size)
    ensures var r := PlaceStep(q, size, align, span); !r.outcome.Got? || Strays(r) || r.outcome.u + size > r.outcome.span.raw + r.outcome.span.size
  {
  }

  /** The guard passes, a span is acquired, and placement in it fails. */
  predicate AcquiredButUnplaceable(p: Picture, ps: nat, size: nat, alignment: nat, os: Option<Addr>)
    requires |p.bins| == BINS && size < WORD && alignment < WORD && ps < WORD
  {
    GuardPasses(size, EffectiveAlignment(alignment)) &&
    var span := Acquire(p, SpanSize(size, alignment, ps), os).span;
    span.Some? && PlaceFails(size, EffectiveAlignment(alignment), span.value.size, span.value.raw)
  }

  /** A span is lost by exactly those requests whose span was acquired and could not be placed, which takes a
      rounding that wraps; and what is lost stays lost. */
  lemma LostExactly(limits: Limits, p: Picture, ps: nat, size: nat, alignment: nat, os: Option<Addr>, r: Addr)
    requires p in Accounted(limits, None) && IsPageSize(ps) && size < WORD && alignment < WORD
    requires GuardPasses(size, EffectiveAlignment(alignment)) ==> FreshSpan(p.mapped, SpanSize(size, alignment, ps), os)
    ensures |p.bins| == BINS
    ensures var res := AllocateStep(p, ps, size, alignment, os);
      && (Located(res.p, r, Lost) <==> Located(p, r, Lost) || (res.outcome.Unplaced? && res.outcome.span.raw == r))
      && (res.outcome.Unplaced? ==> GuardPasses(size, EffectiveAlignment(alignment)) && !Unwrapped(size, alignment, ps))
      && (res.outcome.Unplaced? <==> AcquiredButUnplaceable(p, ps, size, alignment, os))
  {
    UnplacedIff(p, ps, size, alignment, os);
    var align := EffectiveAlignment(alignment);
    if GuardPasses(size, align) {
      if Unwrapped(size, alignment, ps) { UnwrappedIsServed(limits, p, ps, size, alignment, os); }
      SpanPositive(Total(size, align), ps);
      AcquireKeeps(limits, p, SpanSize(size, alignment, ps), os);
      var a := Acquire(p, SpanSize(size, alignment, ps), os);
      AllocateIs(p, ps, size, alignment, os, a);
      AcquireLosesNothing(p, SpanSize(size, alignment, ps), os, a, r);
      if a.span.Some? { PlaceLoses(a.p, size, align, a.span.value, r); }
    }
  }

  lemma UnplacedIff(p: Picture, ps: nat, size: nat, alignment: nat, os: Option<Addr>)
    requires |p.bins| == BINS && size < WORD && alignment < WORD && ps < WORD
    ensures AllocateStep(p, ps, size, alignment, os).outcome.Unplaced? <==> AcquiredButUnplaceable(p, ps, size, alignment, os)
  {
  }

  lemma AcquireLosesNothing(p: Picture, size: nat, os: Option<Addr>, a: Acquisition, r: Addr)
    requires |p.bins| == BINS && a == Acquire(p, size, os)
    requires a.span.Some? ==> a.span.value.raw !in p.at || p.at[a.span.value.raw].InBin?
    ensures Located(a.p, r, Lost) <==> Located(p, r, Lost)
    ensures a.span.Some? ==> Located(a.p, a.span.value.raw, InTransit)
  {
  }

  lemma PlaceLoses(q: Picture, size: nat, align: nat, span: CachedSpan, r: Addr)
    requires align < WORD && Located(q, span.raw, InTransit)
    ensures var res := PlaceStep(q, size, align, span);
      Located(res.p, r, Lost) <==> Located(q, r, Lost) || (res.outcome.Unplaced? && res.outcome.span.raw == r)
  {
  }

  lemma DeallocateLosesNothing(limits: Limits, p: Picture, u: Addr, r: Addr)
    requires p in Accounted(limits, None) && u in p.live && u < WORD
    ensures |p.bins| == BINS && HeaderAt(u) in p.headers
    ensures Located(DeallocateStep(p, limits, u), r, Lost) <==> Located(p, r, Lost)
  {
    DeallocateKeeps(limits, p, u);
    assert Located(p, p.live[u].raw, InUse(u));
  }

  lemma SpanInSpace(limits: Limits, p: Picture, span: CachedSpan)
    requires p in Accounted(limits, Some(span))
    ensures span.raw in p.mapped && p.mapped[span.raw] == span.size && 0 < span.raw && span.raw + span.size < WORD
  {
    assert FoundAt(p, Some(span), span.raw);
    assert Regions(p.mapped);
  }

  // ---- outcomes, in full ----

  /** A freed span of bin i's size is kept while the bin has fewer than eight and the limits allow: it stays mapped,
      on top of that bin, and the bin's and the allocator's totals grow by it. */
  lemma SpanKept(limits: Limits, p: Picture, u: Addr, i: nat)
    requires p in Accounted(limits, None) && u in p.live && u < WORD && i < 16 && p.live[u].size == BIN_SIZES[i]
    requires |p.bins| == 16 && p.bins[i].count < 8
    requires p.cachedSpans < limits.spans && p.cachedBytes + p.live[u].size <= limits.bytes
    ensures HeaderAt(u) in p.headers && |p.bins[i].spans| == 8
    ensures var d, span, n := DeallocateStep(p, limits, u), p.live[u], p.bins[i].count;
      && d.mapped == p.mapped && d.at == p.at[span.raw := InBin(i, n)] && d.live == p.live - {u} && d.headers == p.headers
      && d.bins == p.bins[i := SpanBin(p.bins[i].spans[n := span], n + 1, p.bins[i].bytes + span.size)]
      && d.cachedSpans == p.cachedSpans + 1 && d.cachedBytes == p.cachedBytes + span.size
  {
    KeptIs(limits, p, u, i);
    PushedIs(p, u, p.live[u], i, DeallocateStep(p, limits, u));
  }

  lemma KeptIs(limits: Limits, p: Picture, u: Addr, i: nat)
    requires p in Accounted(limits, None) && u in p.live && u < WORD && i < 16 && p.live[u].size == BIN_SIZES[i]
    requires |p.bins| == 16 && p.bins[i].count < 8
    requires p.cachedSpans < limits.spans && p.cachedBytes + p.live[u].size <= limits.bytes
    ensures HeaderAt(u) in p.headers && |p.bins[i].spans| == 8
    ensures DeallocateStep(p, limits, u) == PushBin(TakeBack(p, u, p.live[u].raw), i, p.live[u])
  {
    DeallocateKeeps(limits, p, u);
    DeallocateIs(p, limits, u, p.live[u]);
    assert BinOk(p.bins[i], BinSize(i));
    ReturnPushes(TakeBack(p, u, p.live[u].raw), limits, p.live[u], i);
  }

  lemma PushedIs(p: Picture, u: Addr, span: CachedSpan, i: nat, d: Picture)
    requires i < |p.bins| && p.bins[i].count < |p.bins[i].spans| && d == PushBin(TakeBack(p, u, span.raw), i, span)
    ensures d.mapped == p.mapped && d.at == p.at[span.raw := InBin(i, p.bins[i].count)] && d.live == p.live - {u} && d.headers == p.headers
    ensures d.bins == p.bins[i := SpanBin(p.bins[i].spans[p.bins[i].count := span], p.bins[i].count + 1, p.bins[i].bytes + span.size)]
    ensures d.cachedSpans == p.cachedSpans + 1 && d.cachedBytes == p.cachedBytes + span.size
  {
  }

  lemma ReturnPushes(p: Picture, limits: Limits, span: CachedSpan, i: nat)
    requires |p.bins| == 16 && i < 16 && span.size == BIN_SIZES[i] && p.bins[i].count < 8 == |p.bins[i].spans|
    requires p.cachedSpans < limits.spans && p.cachedBytes + span.size <= limits.bytes
    ensures ReturnStep(p, limits, span) == PushBin(p, i, span)
  {
    BinIs(span.size, i);
  }

  /** In every other case it is unmapped, and bins and totals are as they were. */
  lemma SpanUnmapped(limits: Limits, p: Picture, u: Addr)
    requires p in Accounted(limits, None) && u in p.live && u < WORD && |p.bins| == 16
    requires (forall i | 0 <= i < 16 && BIN_SIZES[i] == p.live[u].size :: p.bins[i].count >= 8)
             || p.cachedSpans >= limits.spans || p.cachedBytes + p.live[u].size > limits.bytes
    ensures HeaderAt(u) in p.headers
    ensures var d, raw := DeallocateStep(p, limits, u), p.live[u].raw;
      && raw in p.mapped && d.mapped == p.mapped - {raw} && d.at == p.at - {raw} && d.live == p.live - {u} && d.headers == p.headers
      && d.bins == p.bins && d.cachedSpans == p.cachedSpans && d.cachedBytes == p.cachedBytes
  {
    DeallocateKeeps(limits, p, u);
    DeallocateIs(p, limits, u, p.live[u]);
    BinIndexExact(p.live[u].size);
    assert p.at[p.live[u].raw := InTransit] - {p.live[u].raw} == p.at - {p.live[u].raw};
  }

  lemma BinIs(size: nat, i: nat)
    requires i < 16 && size == BIN_SIZES[i]
    ensures BinIndexFor(size) == Bin(i)
  {
  }

  /** A stocked bin from the class's own to three above it is always reused: of these the lowest, and of that its
      newest span. */
  lemma SpanReused(limits: Limits, p: Picture, i: nat, j: nat, os: Option<Addr>)
    requires p in Accounted(limits, None) && |p.bins| == 16 && i <= j < 16 && j <= i + 3
    requires p.bins[j].count > 0 && forall k | i <= k < j :: p.bins[k].count == 0
    ensures p.bins[j].count <= |p.bins[j].spans|
    ensures var a, bin := Acquire(p, BIN_SIZES[i], os), p.bins[j];
      && a.span == Some(bin.spans[bin.count - 1]) && bin.spans[bin.count - 1].size == BIN_SIZES[j] && bin.bytes >= BIN_SIZES[j]
      && a.p.mapped == p.mapped
      && a.p.bins == p.bins[j := SpanBin(bin.spans, bin.count - 1, bin.bytes - BIN_SIZES[j])]
      && a.p.cachedSpans == p.cachedSpans - 1 && a.p.cachedBytes == p.cachedBytes - BIN_SIZES[j]
  {
    BinIs(BIN_SIZES[i], i);
    StockedIs(p.bins, i, LastBin(i), j);
    PopCounters(limits, p, j);
  }

  lemma {:induction false} StockedIs(bins: seq<SpanBin>, i: nat, last: nat, j: nat)
    requires last < |bins| && i <= j <= last && bins[j].count > 0 && forall k | i <= k < j :: bins[k].count == 0
    ensures FirstStocked(bins, i, last) == Bin(j)
    decreases j - i
  {
    if i < j { StockedIs(bins, i + 1, last, j); }
  }

  /** And a region is mapped, of exactly the class, in every other case: the class is no bin's, or it and the three
      above it are empty. */
  lemma SpanMapped(p: Picture, size: nat, os: Option<Addr>)
    requires |p.bins| == 16
    requires forall i, j | 0 <= i < 16 && BIN_SIZES[i] == size && i <= j < 16 && j <= i + 3 :: p.bins[j].count == 0
    ensures var a := Acquire(p, size, os);
      && (os.None? ==> a == Acquisition(p, None))
      && (os.Some? ==> a.span == Some(CachedSpan(os.value, size)) && a.p.mapped == p.mapped[os.value := size]
                       && a.p.bins == p.bins && a.p.cachedSpans == p.cachedSpans && a.p.cachedBytes == p.cachedBytes)
  {
    BinIndexExact(size);
  }

  /** A request is refused exactly when size, alignment and header do not add up to a word; then nothing happens. */
  lemma RefusedExactly(p: Picture, ps: nat, size: nat, alignment: nat, os: Option<Addr>)
    requires |p.bins| == BINS && ps < WORD && size < WORD && alignment < WORD
    ensures var a, r := if alignment < 8 then 8 else alignment, AllocateStep(p, ps, size, alignment, os);
      (r.outcome.Refused? <==> size + a + 32 >= 0x1_0000_0000_0000_0000) && (r.outcome.Refused? ==> r.p == p)
  {
  }

  /** What a request is served with, if rounding to pages does not wrap: the span acquired for the class of size,
      alignment and header in whole pages. The pointer is the first multiple of the alignment that leaves room for the
      header, and the header says what was asked for and which span it is in. */
  lemma RequestExactly(limits: Limits, p: Picture, ps: nat, size: nat, alignment: nat, os: Option<Addr>)
    requires p in Accounted(limits, None) && IsPageSize(ps) && alignment < WORD && |p.bins| == BINS
    requires size + (if alignment < 8 then 8 else alignment) + 32 + ps - 1 < 0x1_0000_0000_0000_0000
    requires FreshSpan(p.mapped, ConfigClassFor(AlignUp(size + (if alignment < 8 then 8 else alignment) + 32, ps)), os)
    ensures var a, r := if alignment < 8 then 8 else alignment, AllocateStep(p, ps, size, alignment, os);
      var span := Acquire(p, ConfigClassFor(AlignUp(size + a + 32, ps)), os).span;
      if span.None? then r == Result(p, NoMemory) else r in Servings(p, size, a, span.value)
  {
    var a := EffectiveAlignment(alignment);
    SpanForTotal(Total(size, a), ps);
    ServedFrom(limits, p, ps, size, alignment, SpanSize(size, alignment, ps), os);
  }

  lemma ServedFrom(limits: Limits, p: Picture, ps: nat, size: nat, alignment: nat, c: nat, os: Option<Addr>)
    requires p in Accounted(limits, None) && ps < WORD && size < WORD && alignment < WORD && |p.bins| == BINS
    requires c == SpanSize(size, alignment, ps) && GuardPasses(size, EffectiveAlignment(alignment)) && Total(size, EffectiveAlignment(alignment)) <= c
    requires FreshSpan(p.mapped, c, os)
    ensures var r, span := AllocateStep(p, ps, size, alignment, os), Acquire(p, c, os).span;
      if span.None? then r == Result(p, NoMemory) else r in Servings(p, size, EffectiveAlignment(alignment), span.value)
  {
    var acquired := Acquire(p, c, os);
    AcquiredSpan(limits, p, c, os, acquired);
    AllocateIs(p, ps, size, alignment, os, acquired);
    if acquired.span.Some? { PlacedExactly(p, acquired.p, size, EffectiveAlignment(alignment), acquired.span.value); }
  }

  lemma AcquiredSpan(limits: Limits, p: Picture, size: nat, os: Option<Addr>, a: Acquisition)
    requires p in Accounted(limits, None) && |p.bins| == BINS && size > 0 && FreshSpan(p.mapped, size, os) && a == Acquire(p, size, os)
    ensures a.p.live == p.live && a.p.headers == p.headers && a.p.node == p.node && (a.span.None? ==> a.p == p)
    ensures a.span.Some? ==> size <= a.span.value.size && a.span.value.raw + a.span.value.size < WORD
  {
    AcquireKeeps(limits, p, size, os);
    if a.span.Some? { SpanInSpace(limits, a.p, a.span.value); }
  }

  lemma PlacedExactly(p: Picture, q: Picture, size: nat, align: nat, span: CachedSpan)
    requires q.live == p.live && q.headers == p.headers && q.node == p.node
    requires 0 < align < WORD && Total(size, align) <= span.size && span.raw + span.size < WORD
    ensures PlaceStep(q, size, align, span) in Servings(p, size, align, span)
  {
    PlacementFits(size, align, span.size, span.raw);
    PlacedAt(q, size, align, span, Place(align, span.raw));
  }

  ghost function Servings(p: Picture, size: nat, align: nat, span: CachedSpan): iset<Result>
  {
    iset r: Result | Served(p, r, size, align, span)
  }

  predicate Served(p: Picture, r: Result, size: nat, align: nat, span: CachedSpan)
  {
    && r.outcome.Got? && r.outcome.span == span && align > 0
    && var u := r.outcome.u;
       && u % align == 0 && span.raw + 32 <= u < span.raw + 32 + align && u + size <= span.raw + span.size
       && r.p.live == p.live[u := span]
       && r.p.headers == p.headers[u - 32 := H.BlockHeader(p.node, 0, size, span.raw, span.size)]
  }

  // ---- runs ----

  datatype Call = Malloc(size: nat, alignment: nat, os: Option<Addr>) | Dispose(u: Addr)

  /** A request of machine words for which the OS answers with a fresh region or not at all, or a free of a
      live pointer. */
  ghost predicate Possible(p: Picture, ps: nat, a: Call)
    requires ps < WORD
  {
    match a
    case Malloc(size, alignment, os) =>
      && |p.bins| == BINS && size < WORD && alignment < WORD
      && (GuardPasses(size, EffectiveAlignment(alignment)) ==> FreshSpan(p.mapped, SpanSize(size, alignment, ps), os))
    case Dispose(u) => |p.bins| == BINS && u in p.live && u < WORD && HeaderAt(u) in p.headers
  }

  function Step(p: Picture, limits: Limits, ps: nat, a: Call): Result
    requires |p.bins| == BINS && ps < WORD
    requires a.Malloc? ==> a.size < WORD && a.alignment < WORD
    requires a.Dispose? ==> HeaderAt(a.u) in p.headers
  {
    match a
    case Malloc(size, alignment, os) => AllocateStep(p, ps, size, alignment, os)
    case Dispose(u) => Result(DeallocateStep(p, limits, u), Refused)
  }

  ghost predicate IsLargeRun(limits: Limits, ps: nat, p: Picture, run: seq<Call>, p': Picture)
    requires ps < WORD
    decreases |run|
  {
    if run == [] then p' == p
    else Possible(p, ps, run[0]) && IsLargeRun(limits, ps, Step(p, limits, ps, run[0]).p, run[1..], p')
  }

  /** No call of the run wrote a header outside its span; by UnwrappedIsServed that takes a wrapped rounding. */
  ghost predicate NoStray(limits: Limits, ps: nat, p: Picture, run: seq<Call>)
    requires ps < WORD
    decreases |run|
  {
    run != [] && Possible(p, ps, run[0]) ==>
      !Strays(Step(p, limits, ps, run[0])) && NoStray(limits, ps, Step(p, limits, ps, run[0]).p, run[1..])
  }

  function NewAllocator(node: nat): Picture
  {
    Picture(node, seq(BINS, _ => EmptyBin()), 0, 0, map[], map[], map[], map[])
  }

  function EmptyBin(): SpanBin
  {
    SpanBin(seq(SPANS_PER_BIN, _ => CachedSpan(NULL, 0)), 0, 0)
  }

  lemma NewIsAccounted(limits: Limits, node: nat)
    ensures NewAllocator(node) in Accounted(limits, None)
  {
    SumZero(Counts(NewAllocator(node).bins));
    SumZero(Bytes(NewAllocator(node).bins));
  }

  lemma {:induction false} RunKeepsShapes(limits: Limits, ps: nat, p: Picture, run: seq<Call>, p': Picture)
    requires ps < WORD && p in Shapes(limits) && IsLargeRun(limits, ps, p, run, p')
    ensures p' in Shapes(limits)
    decreases |run|
  {
    if run != [] {
      match run[0]
      case Malloc(size, alignment, os) =>
        AllocateKeepsShapes(limits, p, ps, size, alignment, os);
        RunKeepsShapes(limits, ps, AllocateStep(p, ps, size, alignment, os).p, run[1..], p');
      case Dispose(u) =>
        DeallocateKeepsShapes(limits, p, u);
        RunKeepsShapes(limits, ps, DeallocateStep(p, limits, u), run[1..], p');
    }
  }

  lemma {:induction false} RunKeepsAccount(limits: Limits, ps: nat, p: Picture, run: seq<Call>, p': Picture)
    requires IsPageSize(ps) && p in Accounted(limits, None) && IsLargeRun(limits, ps, p, run, p') && NoStray(limits, ps, p, run)
    ensures p' in Accounted(limits, None)
    decreases |run|
  {
    if run != [] {
      match run[0]
      case Malloc(size, alignment, os) =>
        AllocateKeeps(limits, p, ps, size, alignment, os);
        RunKeepsAccount(limits, ps, AllocateStep(p, ps, size, alignment, os).p, run[1..], p');
      case Dispose(u) =>
        DeallocateKeeps(limits, p, u);
        RunKeepsAccount(limits, ps, DeallocateStep(p, limits, u), run[1..], p');
    }
  }

  /** After any run at all, requests whose rounding wraps included: each bin holds spans of its own size only,
      counts and bytes add up, and no limit is exceeded. */
  lemma CountersAgree(limits: Limits, ps: nat, node: nat, run: seq<Call>, p: Picture, i: nat)
    requires ps < WORD && IsLargeRun(limits, ps, NewAllocator(node), run, p) && i < BINS
    ensures |p.bins| == BINS && p.bins[i].count <= SPANS_PER_BIN
    ensures forall j: nat | Slot(p, i, j).Some? :: Slot(p, i, j).value.size == BIN_SIZES[i]
    ensures p.bins[i].bytes == p.bins[i].count * BIN_SIZES[i]
    ensures p.cachedSpans == Sum(Counts(p.bins)) <= limits.spans
    ensures p.cachedBytes == Sum(Bytes(p.bins)) <= limits.bytes
  {
    NewIsAccounted(limits, node);
    RunKeepsShapes(limits, ps, NewAllocator(node), run, p);
    assert BinOk(p.bins[i], BinSize(i));
  }

  /** After any run in which no header went astray, requests whose rounding wraps included: every span got from
      the OS and not given back is live once, or cached once, or lost, and still has the size it was mapped with. */
  lemma EachSpanOnce(limits: Limits, ps: nat, node: nat, run: seq<Call>, p: Picture, r: Addr)
    requires IsPageSize(ps) && IsLargeRun(limits, ps, NewAllocator(node), run, p) && NoStray(limits, ps, NewAllocator(node), run)
    requires r in p.mapped
    ensures r in p.at && !p.at[r].InTransit?
    ensures p.at[r].InUse? ==> p.at[r].u in p.live && p.live[p.at[r].u] == CachedSpan(r, p.mapped[r])
    ensures p.at[r].InBin? ==> Slot(p, p.at[r].i, p.at[r].j) == Some(CachedSpan(r, p.mapped[r]))
    ensures forall u | u in p.live && p.live[u].raw == r :: p.at[r] == InUse(u)
    ensures forall i: nat, j: nat | Slot(p, i, j).Some? && Slot(p, i, j).value.raw == r :: p.at[r] == InBin(i, j)
  {
    NewIsAccounted(limits, node);
    RunKeepsAccount(limits, ps, NewAllocator(node), run, p);
    assert FoundAt(p, None, r);
    forall i: nat, j: nat | Slot(p, i, j).Some? && Slot(p, i, j).value.raw == r ensures p.at[r] == InBin(i, j) {
      assert Located(p, Slot(p, i, j).value.raw, InBin(i, j));
    }
  }

  // ---- runs whose roundings do not wrap ----

  /** Nothing is lost and every payload ends inside its span. */
  ghost predicate Whole(p: Picture)
  {
    (forall r | r in p.at :: p.at[r] != Lost) && (forall u | u in p.live :: PayloadInside(p, u))
  }

  ghost predicate AllUnwrapped(ps: nat, run: seq<Call>)
  {
    forall i | 0 <= i < |run| && run[i].Malloc? && GuardPasses(run[i].size, EffectiveAlignment(run[i].alignment)) ::
      Unwrapped(run[i].size, run[i].alignment, ps)
  }

  lemma AllocateKeepsWhole(limits: Limits, p: Picture, ps: nat, size: nat, alignment: nat, os: Option<Addr>)
    requires p in Accounted(limits, None) && Whole(p) && IsPageSize(ps) && size < WORD && alignment < WORD
    requires GuardPasses(size, EffectiveAlignment(alignment)) ==> Unwrapped(size, alignment, ps)
    requires GuardPasses(size, EffectiveAlignment(alignment)) ==> FreshSpan(p.mapped, SpanSize(size, alignment, ps), os)
    ensures |p.bins| == BINS && !Strays(AllocateStep(p, ps, size, alignment, os)) && Whole(AllocateStep(p, ps, size, alignment, os).p)
  {
    if GuardPasses(size, EffectiveAlignment(alignment)) {
      UnwrappedIsServed(limits, p, ps, size, alignment, os);
      NoneLost(limits, p, ps, size, alignment, os);
      var res := AllocateStep(p, ps, size, alignment, os);
      if res.outcome.Got? { ServedKeepsPayloads(p, res, size, EffectiveAlignment(alignment), SpanSize(size, alignment, ps)); }
    }
  }

  lemma NoneLost(limits: Limits, p: Picture, ps: nat, size: nat, alignment: nat, os: Option<Addr>)
    requires p in Accounted(limits, None) && (forall r | r in p.at :: p.at[r] != Lost)
    requires IsPageSize(ps) && size < WORD && alignment < WORD && Unwrapped(size, alignment, ps)
    requires FreshSpan(p.mapped, SpanSize(size, alignment, ps), os)
    ensures |p.bins| == BINS && forall r | r in AllocateStep(p, ps, size, alignment, os).p.at :: AllocateStep(p, ps, size, alignment, os).p.at[r] != Lost
  {
    var res := AllocateStep(p, ps, size, alignment, os);
    forall r | r in res.p.at ensures res.p.at[r] != Lost { LostExactly(limits, p, ps, size, alignment, os, r); }
  }

  lemma ServedKeepsPayloads(p: Picture, r: Result, size: nat, align: nat, spanSize: nat)
    requires (forall u | u in p.live :: PayloadInside(p, u)) && r in WellServeds(p, size, align, spanSize)
    ensures forall u | u in r.p.live :: PayloadInside(r.p, u)
  {
    forall u | u in r.p.live ensures PayloadInside(r.p, u) {
      if u != r.outcome.u { assert PayloadInside(p, u); }
    }
  }

  lemma DeallocateKeepsWhole(limits: Limits, p: Picture, u: Addr)
    requires p in Accounted(limits, None) && Whole(p) && u in p.live && u < WORD
    ensures |p.bins| == BINS && HeaderAt(u) in p.headers && Whole(DeallocateStep(p, limits, u))
  {
    DeallocateKeeps(limits, p, u);
    var q := DeallocateStep(p, limits, u);
    forall r | r in q.at ensures q.at[r] != Lost { DeallocateLosesNothing(limits, p, u, r); }
    forall v | v in q.live ensures PayloadInside(q, v) { assert PayloadInside(p, v); }
  }

  /** Over any run whose roundings do not wrap, every span is live once or cached once, and no payload leaves its
      span. */
  lemma {:induction false} UnwrappedRunIsWhole(limits: Limits, ps: nat, p: Picture, run: seq<Call>, p': Picture)
    requires IsPageSize(ps) && p in Accounted(limits, None) && Whole(p) && IsLargeRun(limits, ps, p, run, p') && AllUnwrapped(ps, run)
    ensures p' in Accounted(limits, None) && Whole(p') && NoStray(limits, ps, p, run)
    decreases |run|
  {
    if run != [] {
      assert forall i | 0 <= i < |run[1..]| :: run[1..][i] == run[i + 1];
      match run[0]
      case Malloc(size, alignment, os) =>
        AllocateKeepsWhole(limits, p, ps, size, alignment, os);
        AllocateKeeps(limits, p, ps, size, alignment, os);
        UnwrappedRunIsWhole(limits, ps, AllocateStep(p, ps, size, alignment, os).p, run[1..], p');
      case Dispose(u) =>
        DeallocateKeepsWhole(limits, p, u);
        DeallocateKeeps(limits, p, u);
        UnwrappedRunIsWhole(limits, ps, DeallocateStep(p, limits, u), run[1..], p');
    }
  }

  /** Headers of two live allocations never overlap; nor do their payloads, once both end inside their spans. */
  lemma LiveSpansDisjoint(limits: Limits, p: Picture, u: Addr, v: Addr)
    requires p in Accounted(limits, None) && u in p.live && v in p.live && u != v
    ensures u >= HEADER && v >= HEADER && u - HEADER in p.headers && v - HEADER in p.headers
    ensures SpansApart(u - HEADER, HEADER, v - HEADER, HEADER)
    ensures PayloadInside(p, u) && PayloadInside(p, v) ==>
      SpansApart(u - HEADER, HEADER + p.headers[u - HEADER].size, v - HEADER, HEADER + p.headers[v - HEADER].size)
  {
    assert Located(p, p.live[u].raw, InUse(u)) && Headed(p, u);
    assert Located(p, p.live[v].raw, InUse(v)) && Headed(p, v);
    assert FoundAt(p, None, p.live[u].raw) && FoundAt(p, None, p.live[v].raw);
    assert Regions(p.mapped);
    assert SpansApart(p.live[u].raw, p.mapped[p.live[u].raw], p.live[v].raw, p.mapped[p.live[v].raw]);
  }

  // ---- what happens past the guard: three requests ----

  /** The request of LostExample at a new allocator: bad_alloc, and the 8 KB span is mapped for good. */
  lemma LeakExample(limits: Limits, node: nat, raw: Addr)
    requires 4096 <= raw && raw % 4096 == 0 && raw + 8 * K < 0x8000_0000_0000_0000
    ensures var r := AllocateStep(NewAllocator(node), 4096, 0x8000_0000_0000_0000 - 33, 0x8000_0000_0000_0000, Some(raw));
      r.outcome == Unplaced(CachedSpan(raw, 8 * K)) && r.p.mapped == map[raw := 8 * K] && r.p.at[raw] == Lost && r.p.live == map[]
  {
    LostExample(raw);
    NothingToReuse(node, 8 * K);
  }

  /** The request of OverrunExample: a pointer 32 bytes into an 8 KB span for almost all of memory. */
  lemma OverrunningPointerExample(limits: Limits, node: nat, raw: Addr)
    requires 4096 <= raw && raw % 4096 == 0 && raw + 8 * K < WORD
    ensures var r := AllocateStep(NewAllocator(node), 4096, WORD - 49, 16, Some(raw));
      && r.outcome == Got(raw + HEADER, CachedSpan(raw, 8 * K)) && !Strays(r)
      && raw + HEADER in r.p.live && !PayloadInside(r.p, raw + HEADER)
  {
    OverrunExample(raw);
    NothingToReuse(node, 8 * K);
    HeaderBelow(raw + HEADER);
  }

  /** The request of StrayExample: the header is written a megabyte past its span. */
  lemma StrayingHeaderExample(limits: Limits, node: nat)
    ensures var r := AllocateStep(NewAllocator(node), 4096, WORD - 33 - 0x10_0000, 0x10_0000, Some(0x10_0000));
      Strays(r) && r.outcome == Got(0x20_0000, CachedSpan(0x10_0000, 8 * K))
  {
    StrayExample();
    NothingToReuse(node, 8 * K);
  }

  lemma NothingToReuse(node: nat, size: nat)
    ensures Reusable(NewAllocator(node).bins, size).NoBin?
  {
    BinIndexExact(size);
  }
}
