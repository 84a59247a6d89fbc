/** Span classes, rounding as the machine does it, and where a large allocation is placed in its span. */
module LargeObjectSpec {
  import opened Arithmetic
  import opened Lists

  const K: nat := 1024
  /** kLargeBinSizes. */
  const BIN_SIZES: seq<nat> :=
    [8 * K, 12 * K, 16 * K, 24 * K, 32 * K, 48 * K, 64 * K, 96 * K,
     128 * K, 192 * K, 256 * K, 384 * K, 512 * K, 768 * K, 1024 * K, 2048 * K]
  const BINS: nat := 16
  const SPANS_PER_BIN: nat := 8
  const SEARCH_LIMIT: nat := 3
  const MIN_ALIGNMENT: nat := 8
  /** size_t and uintptr_t arithmetic is modulo this. */
  const WORD: nat := 0x1_0000_0000_0000_0000

  datatype BinIndex = NoBin | Bin(index: nat)

  // ---- classes ----

  /** LargeObjectConfig::class_size_for. */
  function ConfigClassFor(r: nat): nat
  {
    if r <= 8 * K then 8 * K
    else if r <= 12 * K then 12 * K
    else if r <= 16 * K then 16 * K
    else if r <= 24 * K then 24 * K
    else if r <= 32 * K then 32 * K
    else if r <= 48 * K then 48 * K
    else if r <= 64 * K then 64 * K
    else if r <= 96 * K then 96 * K
    else if r <= 128 * K then 128 * K
    else if r <= 192 * K then 192 * K
    else if r <= 256 * K then 256 * K
    else if r <= 384 * K then 384 * K
    else if r <= 512 * K then 512 * K
    else if r <= 768 * K then 768 * K
    else if r <= 1024 * K then 1024 * K
    else if r <= 2048 * K then 2048 * K
    else r
  }

  /** LargeObjectConfig::bin_index_for. */
  function BinIndexFor(size: nat): BinIndex
  {
    if size == 8 * K then Bin(0)
    else if size == 12 * K then Bin(1)
    else if size == 16 * K then Bin(2)
    else if size == 24 * K then Bin(3)
    else if size == 32 * K then Bin(4)
    else if size == 48 * K then Bin(5)
    else if size == 64 * K then Bin(6)
    else if size == 96 * K then Bin(7)
    else if size == 128 * K then Bin(8)
    else if size == 192 * K then Bin(9)
    else if size == 256 * K then Bin(10)
    else if size == 384 * K then Bin(11)
    else if size == 512 * K then Bin(12)
    else if size == 768 * K then Bin(13)
    else if size == 1024 * K then Bin(14)
    else if size == 2048 * K then Bin(15)
    else NoBin
  }

  /** The class of r is the least bin size that holds r; a request beyond the largest keeps its size. */
  lemma ClassIsLeastBin(r: nat)
    ensures ConfigClassFor(r) >= r
    ensures r <= BIN_SIZES[BINS - 1] <==> ConfigClassFor(r) in BIN_SIZES
    ensures forall i | 0 <= i < BINS :: r <= BIN_SIZES[i] ==> ConfigClassFor(r) <= BIN_SIZES[i]
    ensures r > BIN_SIZES[BINS - 1] ==> ConfigClassFor(r) == r
  {
  }

  /** The switch finds a bin exactly for the bin sizes, and the right one. */
  lemma BinIndexExact(size: nat)
    ensures BinIndexFor(size) == NoBin <==> size !in BIN_SIZES
    ensures BinIndexFor(size).Bin? ==> BinIndexFor(size).index < BINS && BIN_SIZES[BinIndexFor(size).index] == size
  {
  }

  /** The bin sizes: 8 KB and 12 KB, each doubled up to 1 MB and 768 KB, and 2 MB. */
  lemma BinsDouble()
    ensures |BIN_SIZES| == 16 && BIN_SIZES[0] == 8192 && BIN_SIZES[1] == 12288 && BIN_SIZES[15] == 2097152
    ensures forall i | 0 <= i < 13 :: BIN_SIZES[i + 2] == 2 * BIN_SIZES[i]
  {
  }

  /** A span found by the bounded upward search is at least the class asked for and at most four times it. */
  lemma ReuseWithinFour(i: nat, j: nat)
    requires i <= j < BINS && j <= i + SEARCH_LIMIT
    ensures BIN_SIZES[i] <= BIN_SIZES[j] <= 4 * BIN_SIZES[i]
  {
  }

  // ---- page rounding ----

  predicate IsPageSize(ps: nat)
  {
    IsPow2(ps) && ps <= WORD / 2
  }

  /** The class of a page-rounded request is a page multiple already, for every power-of-two page. */
  lemma ClassIsPageMultiple(r: nat, ps: nat)
    requires IsPow2(ps) && r > 0 && r % ps == 0
    ensures ConfigClassFor(r) % ps == 0
  {
    if ps <= 4 * K {
      assert IsPow2(4 * K) by { SmallPowers(); }
      Pow2Divides(ps, 4 * K);
      ClassIsFourK(r, ps);
    } else if ps <= 2048 * K {
      PowersUpTo2M(ps);
      ClassAtBigPages(r, ps);
    } else {
      MultiplesApart(0, r, ps);
    }
  }

  lemma SmallPowers()
    ensures IsPow2(4096) && IsPow2(2048 * K)
  {
    assert IsPow2(1) && IsPow2(2) && IsPow2(4) && IsPow2(8) && IsPow2(16) && IsPow2(32) && IsPow2(64);
    assert IsPow2(128) && IsPow2(256) && IsPow2(512) && IsPow2(1024) && IsPow2(2048) && IsPow2(4096);
    assert IsPow2(8192) && IsPow2(16384) && IsPow2(32768) && IsPow2(65536) && IsPow2(131072) && IsPow2(262144);
    assert IsPow2(524288) && IsPow2(1048576) && IsPow2(2097152);
  }

  /** Every class size is a multiple of 4096, and a request beyond them keeps its own rounding. */
  lemma ClassIsFourK(r: nat, ps: nat)
    requires ps > 0 && (4 * K) % ps == 0 && r % ps == 0
    ensures ConfigClassFor(r) % ps == 0
  {
    var c := ConfigClassFor(r);
    if c != r {
      assert c % 4096 == 0;
      MultipleOfMultiple(c, ps, 4096);
    }
  }

  lemma PowersUpTo2M(ps: nat)
    requires IsPow2(ps) && 4 * K < ps <= 2048 * K
    ensures ps in {8 * K, 16 * K, 32 * K, 64 * K, 128 * K, 256 * K, 512 * K, 1024 * K, 2048 * K}
  {
    SmallPowers();
    if ps <= 65536 {
      PowersApart(4096, ps);
      PowersApart(8192, ps);
      PowersApart(16384, ps);
      PowersApart(32768, ps);
    } else {
      PowersApart(65536, ps);
      PowersApart(131072, ps);
      PowersApart(262144, ps);
      PowersApart(524288, ps);
      PowersApart(1048576, ps);
    }
  }

  /** No power of two lies strictly between one and its double. */
  lemma PowersApart(p: nat, q: nat)
    requires IsPow2(p) && IsPow2(q)
    ensures q <= p || 2 * p <= q
  {
    if p < q {
      Pow2Divides(p, q);
      MultiplesApart(p, q, p);
    }
  }

  lemma ClassAtBigPages(r: nat, ps: nat)
    requires ps in {8 * K, 16 * K, 32 * K, 64 * K, 128 * K, 256 * K, 512 * K, 1024 * K, 2048 * K}
    requires r > 0 && r % ps == 0
    ensures ConfigClassFor(r) % ps == 0
  {
  }

  // ---- machine arithmetic ----

  /** VirtualMemory::align_up on 64-bit words. */
  function WordAlignUp(x: nat, align: nat): (r: nat)
    requires x < WORD && align < WORD
    ensures r < WORD
  {
    if align == 0 then x
    else
      DivMod((x + align - 1) % WORD, align);
      ((x + align - 1) % WORD) / align * align
  }

  /** The machine's rounding is the mathematical one exactly when x + align - 1 is a word. */
  lemma WordAlignUpExact(x: nat, align: nat)
    requires x < WORD && 0 < align < WORD
    ensures WordAlignUp(x, align) == AlignUp(x, align) <==> x + align - 1 < WORD
    ensures x + align - 1 >= WORD ==> WordAlignUp(x, align) < x
  {
    var y := x + align - 1;
    if y < WORD {
      ModOfWord(y);
    } else {
      ModPastWord(y);
      DivMod(y - WORD, align);
    }
  }

  lemma ModOfWord(y: nat)
    requires y < WORD
    ensures y % WORD == y
  {
  }

  lemma ModPastWord(y: nat)
    requires WORD <= y < 2 * WORD
    ensures y % WORD == y - WORD
  {
  }

  /** LargeObjectAllocator::page_size_for. */
  function PageSizeFor(r: nat, ps: nat): nat
    requires r < WORD && ps < WORD
  {
    WordAlignUp(r, ps)
  }

  /** LargeObjectAllocator::class_size_for. */
  function ClassSizeFor(r: nat, ps: nat): nat
    requires r < WORD && ps < WORD
  {
    PageSizeFor(ConfigClassFor(PageSizeFor(r, ps)), ps)
  }

  /** What a span for `total` bytes comes to when the rounding does not wrap: a bin size, or beyond the
      largest bin the page-rounded request. It covers the request and whole pages. */
  lemma SpanForTotal(total: nat, ps: nat)
    requires IsPageSize(ps) && 0 < total && total + ps - 1 < WORD
    ensures var span := ClassSizeFor(total, ps);
      && span == ConfigClassFor(AlignUp(total, ps))
      && span >= total && span % ps == 0
      && (BinIndexFor(span).Bin? || (span > BIN_SIZES[BINS - 1] && span == AlignUp(total, ps)))
  {
    var r := AlignUp(total, ps);
    WordAlignUpExact(total, ps);
    ClassIsPageMultiple(r, ps);
    ClassIsLeastBin(r);
    var c := ConfigClassFor(r);
    BinIndexExact(c);
    assert BIN_SIZES[15] == 2048 * K;
    PageMultipleFits(c, ps);
    WordAlignUpExact(c, ps);
    AlignUpFixed(c, ps);
  }

  lemma PageMultipleFits(c: nat, ps: nat)
    requires IsPageSize(ps) && c < WORD && c % ps == 0
    ensures c + ps - 1 < WORD
  {
    assert IsPow2(WORD) by { WordIsPow2(); }
    Pow2Divides(ps, WORD);
    MultiplesApart(c, WORD, ps);
  }

  lemma WordIsPow2()
    ensures IsPow2(WORD)
  {
    SmallPowers();
    Pow2Product(4096, 4096);
    Pow2Product(4096 * 4096, 1048576);
    Pow2Product(4096 * 4096 * 1048576, 1048576);
  }

  lemma {:induction false} Pow2Product(p: nat, q: nat)
    requires IsPow2(p) && IsPow2(q)
    ensures IsPow2(p * q)
  {
    if q > 1 {
      Pow2Product(p, q / 2);
      TwiceProduct(p, q / 2);
    }
  }

  lemma TwiceProduct(p: nat, h: nat)
    requires p >= 1 && h >= 1
    ensures p * (2 * h) == 2 * (p * h) && p * h >= 1
  {
    MulMono(1, p, h);
  }

  // ---- the guard and what it does not cover ----

  /** The overflow check at the top of allocate. */
  predicate GuardPasses(size: nat, alignment: nat)
  {
    && !(alignment > WORD - 1 - HEADER)
    && !(size > WORD - 1 - alignment - HEADER)
  }

  function EffectiveAlignment(alignment: nat): nat
  {
    if alignment < MIN_ALIGNMENT then MIN_ALIGNMENT else alignment
  }

  function Total(size: nat, alignment: nat): nat
  {
    size + alignment + HEADER
  }

  /** The span covers the request exactly when rounding the total up to a page stays a word, which the
      guard does not check. */
  lemma SpanCoversIff(size: nat, alignment: nat, ps: nat)
    requires IsPageSize(ps) && GuardPasses(size, alignment)
    ensures ClassSizeFor(Total(size, alignment), ps) >= Total(size, alignment) <==> Total(size, alignment) + ps - 1 < WORD
  {
    var total := Total(size, alignment);
    if total + ps - 1 < WORD {
      SpanForTotal(total, ps);
    } else {
      WrapsToNothing(total, ps);
      assert ConfigClassFor(0) == 8 * K;
      WordAlignUpExact(8 * K, ps);
      if ps > 8 * K { AlignUpLeast(8 * K, ps, ps); }
    }
  }

  lemma WrapsToNothing(total: nat, ps: nat)
    requires 0 < ps < WORD && total < WORD && total + ps - 1 >= WORD
    ensures PageSizeFor(total, ps) == 0
  {
    ModPastWord(total + ps - 1);
    DivUnique(total + ps - 1 - WORD, ps, 0, total + ps - 1 - WORD);
  }

  /** The guard passes and rounding the total up to a page stays a word. */
  predicate Unwrapped(size: nat, alignment: nat, ps: nat)
  {
    GuardPasses(size, EffectiveAlignment(alignment)) && Total(size, EffectiveAlignment(alignment)) + ps - 1 < WORD
  }

  /** The span class of a request, 0 if the guard refuses it. */
  function SpanSize(size: nat, alignment: nat, ps: nat): nat
    requires ps < WORD
  {
    if GuardPasses(size, EffectiveAlignment(alignment)) then ClassSizeFor(Total(size, EffectiveAlignment(alignment)), ps) else 0
  }

  /** Once the rounding wraps, the class is the smallest there is. */
  lemma WrappedClass(total: nat, ps: nat)
    requires IsPageSize(ps) && total < WORD && total + ps - 1 >= WORD
    ensures ClassSizeFor(total, ps) == if ps <= 8 * K then 8 * K else ps
  {
    WrapsToNothing(total, ps);
    assert ConfigClassFor(0) == 8 * K;
    WordAlignUpExact(8 * K, ps);
    if ps > 8 * K {
      AlignUpLeast(8 * K, ps, ps);
      MultiplesApart(0, AlignUp(8 * K, ps), ps);
    } else {
      EightKIsWhole(ps);
    }
  }

  lemma EightKIsWhole(ps: nat)
    requires IsPow2(ps) && ps <= 8 * K
    ensures AlignUp(8 * K, ps) == 8 * K
  {
    assert IsPow2(8192) by { SmallPowers(); }
    Pow2Divides(ps, 8192);
    AlignUpFixed(8192, ps);
  }

  lemma SpanPositive(total: nat, ps: nat)
    requires IsPageSize(ps) && total < WORD
    ensures ClassSizeFor(total, ps) > 0
  {
    if total + ps - 1 >= WORD {
      WrappedClass(total, ps);
    } else if total > 0 {
      SpanForTotal(total, ps);
    } else {
      DivUnique(ps - 1, ps, 0, ps - 1);
      ModOfWord(ps - 1);
      assert ConfigClassFor(0) == 8 * K;
      WordAlignUpExact(8 * K, ps);
    }
  }

  // ---- placement ----

  /** allocate_from_span's start, in machine arithmetic. */
  function Place(alignment: nat, raw: Addr): (start: nat)
    requires alignment < WORD
    ensures start < WORD
  {
    WordAlignUp((raw + HEADER) % WORD, alignment)
  }

  /** Its check, in machine arithmetic: true is bad_alloc. */
  predicate PlaceFails(size: nat, alignment: nat, span: nat, raw: Addr)
    requires alignment < WORD
  {
    (Place(alignment, raw) + size) % WORD > (raw + span) % WORD
  }

  /** For every size and alignment whose rounding does not wrap, and any span in the address space that
      covers the total: placement does not fail, the header lies right below the payload, both inside the
      span, and the payload is aligned as asked. */
  lemma PlacementFits(size: nat, alignment: nat, span: nat, raw: Addr)
    requires 0 < alignment < WORD && Total(size, alignment) <= span && raw + span < WORD
    ensures !PlaceFails(size, alignment, span, raw)
    ensures var start := Place(alignment, raw);
      && start % alignment == 0
      && raw <= start - HEADER && start - raw < HEADER + alignment
      && start + size <= raw + span
  {
    ModOfWord(raw + HEADER);
    WordAlignUpExact(raw + HEADER, alignment);
    var start := AlignUp(raw + HEADER, alignment);
    ModOfWord(start + size);
    ModOfWord(raw + span);
  }

  /** With a page-aligned span and a power-of-two alignment the header is aligned for BlockHeader too. */
  lemma HeaderAligned(size: nat, alignment: nat, span: nat, raw: Addr)
    requires IsPow2(alignment) && alignment < WORD && Total(size, alignment) <= span && raw + span < WORD && raw % 16 == 0
    ensures alignment >= MIN_ALIGNMENT ==> (Place(alignment, raw) - HEADER) % 16 == 0
  {
    PlacementFits(size, alignment, span, raw);
    var start := Place(alignment, raw);
    if alignment >= MIN_ALIGNMENT { AlignmentDividesOrIs8(alignment); }
    SumOfMultiples(raw, HEADER, 16);
    if alignment >= 16 {
      MultipleOfMultiple(start, 16, alignment);
      SumOfMultiples(start, HEADER, 16);
    } else if alignment >= MIN_ALIGNMENT {
      ModOfWord(raw + HEADER);
      WordAlignUpExact(raw + HEADER, alignment);
      MultipleOfMultiple(raw + HEADER, 8, 16);
      AlignUpFixed(raw + HEADER, 8);
    }
  }

  lemma AlignmentDividesOrIs8(alignment: nat)
    requires IsPow2(alignment) && alignment >= MIN_ALIGNMENT
    ensures alignment == 8 || (alignment >= 16 && alignment % 16 == 0)
  {
    assert IsPow2(16) && IsPow2(8) && IsPow2(4) && IsPow2(2) && IsPow2(1);
    PowersApart(8, alignment);
    if alignment >= 16 { Pow2Divides(16, alignment); }
  }

  /** A request whose rounding wraps is never placed soundly in a span of its class or up to four times it: it
      is refused, or the header lies outside, or the payload overruns. */
  lemma WrappedNeverFits(size: nat, alignment: nat, ps: nat, span: nat, raw: Addr)
    requires IsPageSize(ps) && 16 * ps <= WORD && 0 < alignment < WORD && Total(size, alignment) < WORD
    requires Total(size, alignment) + ps - 1 >= WORD && 0 < raw && raw + span < WORD && 8 * K <= span
    requires span <= 4 * (if ps <= 8 * K then 8 * K else ps)
    ensures Place(alignment, raw) < raw + HEADER || Place(alignment, raw) + size > raw + span
  {
    ModOfWord(raw + HEADER);
    WordAlignUpExact(raw + HEADER, alignment);
    if raw + HEADER + alignment - 1 < WORD { MultiplesApart(0, AlignUp(raw + HEADER, alignment), alignment); }
  }

  // ---- three requests the guard lets through ----

  /** Placement fails in the 8 KB span: size 2^63 - 33, alignment 2^63. */
  lemma LostExample(raw: Addr)
    requires 4096 <= raw && raw % 4096 == 0 && raw + 8 * K < 0x8000_0000_0000_0000
    ensures GuardPasses(0x8000_0000_0000_0000 - 33, 0x8000_0000_0000_0000)
    ensures ClassSizeFor(Total(0x8000_0000_0000_0000 - 33, 0x8000_0000_0000_0000), 4096) == 8 * K
    ensures PlaceFails(0x8000_0000_0000_0000 - 33, 0x8000_0000_0000_0000, 8 * K, raw)
  {
    var half := 0x8000_0000_0000_0000;
    ModOfWord(raw + HEADER);
    WordAlignUpExact(raw + HEADER, half);
    AlignUpLeast(raw + HEADER, half, half);
    MultiplesApart(0, AlignUp(raw + HEADER, half), half);
    ModOfWord(half + half - 33);
    ModOfWord(raw + 8 * K);
  }

  /** Placement succeeds and the payload overruns: size 2^64 - 49, alignment 16. */
  lemma OverrunExample(raw: Addr)
    requires 4096 <= raw && raw % 4096 == 0 && raw + 8 * K < WORD
    ensures GuardPasses(WORD - 49, 16) && ClassSizeFor(Total(WORD - 49, 16), 4096) == 8 * K
    ensures !PlaceFails(WORD - 49, 16, 8 * K, raw) && Place(16, raw) == raw + HEADER
  {
    ModOfWord(raw + HEADER);
    WordAlignUpExact(raw + HEADER, 16);
    AlignUpFixed(raw + HEADER, 16);
    ModPastWord(raw + HEADER + (WORD - 49));
    ModOfWord(raw + 8 * K);
  }

  /** Placement succeeds with the header outside the span: alignment 2^20, the largest size. */
  lemma StrayExample()
    ensures GuardPasses(WORD - 33 - 0x10_0000, 0x10_0000)
    ensures ClassSizeFor(Total(WORD - 33 - 0x10_0000, 0x10_0000), 4096) == 8 * K
    ensures !PlaceFails(WORD - 33 - 0x10_0000, 0x10_0000, 8 * K, 0x10_0000) && Place(0x10_0000, 0x10_0000) == 0x20_0000
  {
  }
}
