/** Byte geometry of a slab: where Slab::init puts the blocks, for every block size. */
module Layout {
  import opened Arithmetic
  import opened Lists

  const SLAB_SIZE: nat := 65536
  const ALIGNMENT: nat := 16
  const SLAB_HEADER: nat := 24
  const LINK_SIZE: nat := 8

  /** A place the OS may map a slab at: page-aligned, hence aligned for any object, and not null. */
  predicate IsBase(p: Addr)
  {
    p > 0 && p % ALIGNMENT == 0
  }

  function Max(a: nat, b: nat): nat { if a >= b then a else b }

  function FirstBlock(p: Addr): Addr
  {
    AlignUp(p + SLAB_HEADER, ALIGNMENT)
  }

  /** total_block_size: header plus a payload that can at least hold a link, rounded up. */
  function Stride(size: nat): (r: nat)
    ensures r >= HEADER + size && r >= HEADER + LINK_SIZE && r % ALIGNMENT == 0
  {
    AlignUp(HEADER + Max(size, LINK_SIZE), ALIGNMENT)
  }

  /** header->capacity. The 24-byte slab header rounds up to 32 bytes, see FirstBlockOffset. */
  function Capacity(size: nat): nat
  {
    (SLAB_SIZE - HEADER) / Stride(size)
  }

  function BlockAt(p: Addr, size: nat, i: nat): Addr
  {
    p + HEADER + i * Stride(size)
  }

  ghost predicate IsBlock(p: Addr, size: nat, b: Addr)
  {
    exists i: nat :: i < Capacity(size) && b == BlockAt(p, size, i)
  }

  ghost function BlocksOf(p: Addr, size: nat): iset<Addr>
  {
    iset b | IsBlock(p, size, b)
  }

  ghost predicate Apart(p: Addr, q: Addr)
  {
    p + SLAB_SIZE <= q || q + SLAB_SIZE <= p
  }

  lemma FirstBlockOffset(p: Addr)
    requires IsBase(p)
    ensures FirstBlock(p) == p + HEADER
  {
    SumOfMultiples(p, HEADER, ALIGNMENT);
    AlignUpLeast(p + SLAB_HEADER, ALIGNMENT, p + HEADER);
    MultiplesApart(p, FirstBlock(p), ALIGNMENT);
    MultiplesApart(p + ALIGNMENT, FirstBlock(p), ALIGNMENT);
  }

  /** A stride is the least multiple of 16 that holds the 32-byte header and a payload of at least a pointer. */
  lemma StrideExact(size: nat)
    ensures Stride(size) % 16 == 0
    ensures 32 + size <= Stride(size) && 40 <= Stride(size)
    ensures forall r: nat | r % 16 == 0 && r >= 32 + size && r >= 40 :: Stride(size) <= r
  {
    forall r: nat | r % 16 == 0 && r >= 32 + size && r >= 40 ensures Stride(size) <= r {
      AlignUpLeast(HEADER + Max(size, LINK_SIZE), ALIGNMENT, r);
    }
  }

  /** A slab has as many blocks as strides fit in 64 KB behind its 32-byte header, and not one fewer. */
  lemma CapacityExact(size: nat)
    ensures Capacity(size) * Stride(size) <= 65536 - 32 < (Capacity(size) + 1) * Stride(size)
    ensures Capacity(16) == 1364
  {
    DivMod(SLAB_SIZE - HEADER, Stride(size));
    StrideExact(16);
    DivUnique(65504, 48, 1364, 32);
  }

  /** A slab has room for a block exactly when one stride fits behind its header. */
  lemma CapacityPositiveIffStrideFits(size: nat)
    ensures Capacity(size) > 0 <==> Stride(size) <= SLAB_SIZE - HEADER
  {
    var room: int := SLAB_SIZE - HEADER;
    DivMod(room, Stride(size));
    if Stride(size) <= room && room / Stride(size) <= 0 { MulMono(room / Stride(size), 0, Stride(size)); }
    if room / Stride(size) >= 1 { MulMono(1, room / Stride(size), Stride(size)); }
  }

  /** Every size the table can produce fits. */
  lemma TableSizesFit(size: nat)
    requires size <= 4096
    ensures Capacity(size) > 0
  {
    CapacityPositiveIffStrideFits(size);
    AlignUpLeast(HEADER + Max(size, LINK_SIZE), ALIGNMENT, 4128);
  }

  /** Block i lies inside the slab, behind the slab header, and is aligned; so is its user pointer. */
  lemma BlockInside(p: Addr, size: nat, i: nat)
    requires IsBase(p) && i < Capacity(size)
    ensures p + SLAB_HEADER < p + HEADER <= BlockAt(p, size, i)
    ensures BlockAt(p, size, i) + Stride(size) <= p + SLAB_SIZE
    ensures BlockAt(p, size, i) % ALIGNMENT == 0 && Link(BlockAt(p, size, i)) % ALIGNMENT == 0
  {
    var s := Stride(size);
    DivMod(SLAB_SIZE - HEADER, s);
    MulMono(i + 1, Capacity(size), s);
    assert (i + 1) * s == i * s + s;
    MultipleMod(i, s);
    if i > 0 { MultipleOfMultiple(i * s, ALIGNMENT, s); }
    SumOfMultiples(p, HEADER, ALIGNMENT);
    SumOfMultiples(p + HEADER, i * s, ALIGNMENT);
    SumOfMultiples(BlockAt(p, size, i), HEADER, ALIGNMENT);
  }

  lemma BlockBounds(p: Addr, size: nat, b: Addr)
    requires IsBase(p) && IsBlock(p, size, b)
    ensures 0 < p + HEADER <= b && b + Stride(size) <= p + SLAB_SIZE
    ensures b % ALIGNMENT == 0 && Link(b) % ALIGNMENT == 0
  {
    var i: nat :| i < Capacity(size) && b == BlockAt(p, size, i);
    BlockInside(p, size, i);
  }

  /** Different blocks of one slab are at least a whole stride apart. */
  lemma BlocksDisjoint(p: Addr, size: nat, i: nat, j: nat)
    requires i < j
    ensures BlockAt(p, size, i) + Stride(size) <= BlockAt(p, size, j)
  {
    MulMono(i + 1, j, Stride(size));
    assert (i + 1) * Stride(size) == i * Stride(size) + Stride(size);
  }

  lemma BlocksApart(p: Addr, size: nat, b: Addr, c: Addr)
    requires IsBlock(p, size, b) && IsBlock(p, size, c) && b != c
    ensures b + Stride(size) <= c || c + Stride(size) <= b
  {
    var i: nat :| i < Capacity(size) && b == BlockAt(p, size, i);
    var j: nat :| j < Capacity(size) && c == BlockAt(p, size, j);
    if i < j { BlocksDisjoint(p, size, i, j); } else { BlocksDisjoint(p, size, j, i); }
  }

  /** A block lies in one slab only. */
  lemma OwnerUnique(p: Addr, q: Addr, size: nat, size': nat, b: Addr)
    requires IsBase(p) && IsBase(q) && IsBlock(p, size, b) && IsBlock(q, size', b)
    ensures !Apart(p, q)
  {
    BlockBounds(p, size, b);
    BlockBounds(q, size', b);
  }

  /** The free list Slab::init leaves: the first n blocks, last one first. */
  ghost function InitList(p: Addr, size: nat, n: nat): seq<Addr>
  {
    if n == 0 then [] else [BlockAt(p, size, n - 1)] + InitList(p, size, n - 1)
  }

  lemma {:induction false} InitListProperties(p: Addr, size: nat, n: nat)
    requires n <= Capacity(size)
    ensures |InitList(p, size, n)| == n && NoDup(InitList(p, size, n))
    ensures forall b :: b in InitList(p, size, n) <==> exists i: nat :: i < n && b == BlockAt(p, size, i)
  {
    if n > 0 {
      InitListProperties(p, size, n - 1);
      forall i: nat | i < n - 1 ensures BlockAt(p, size, i) != BlockAt(p, size, n - 1) {
        BlocksDisjoint(p, size, i, n - 1);
      }
      NoDupPush(BlockAt(p, size, n - 1), InitList(p, size, n - 1));
      forall b ensures b in InitList(p, size, n) <==> exists i: nat :: i < n && b == BlockAt(p, size, i) {
        if i: nat :| i < n && b == BlockAt(p, size, i) {
          if i < n - 1 { assert b in InitList(p, size, n - 1); }
        }
      }
    }
  }

  /** Which block is where: a new slab's list runs from its last block down to its first. */
  lemma {:induction false} InitListAt(p: Addr, size: nat, n: nat, k: nat)
    requires k < n
    ensures |InitList(p, size, n)| == n
    ensures InitList(p, size, n)[k] == p + 32 + (n - 1 - k) * Stride(size)
  {
    if n > 1 { InitListAt(p, size, n - 1, if k == 0 then 0 else k - 1); }
  }

  /** A duplicate-free free list of full length holds every block of the slab. */
  lemma FullListHasAll(p: Addr, size: nat, list: seq<Addr>, b: Addr)
    requires NoDup(list) && |list| == Capacity(size) && IsBlock(p, size, b)
    requires forall x | x in list :: IsBlock(p, size, x)
    ensures b in list
  {
    var all := InitList(p, size, Capacity(size));
    InitListProperties(p, size, Capacity(size));
    NoDupCard(list);
    NoDupCard(all);
    SubsetCard(Elems(list), Elems(all));
    assert b in Elems(all);
  }

  /** And no duplicate-free list of blocks is longer. */
  lemma ListBound(p: Addr, size: nat, list: seq<Addr>)
    requires NoDup(list) && forall x | x in list :: IsBlock(p, size, x)
    ensures |list| <= Capacity(size)
  {
    var all := InitList(p, size, Capacity(size));
    InitListProperties(p, size, Capacity(size));
    NoDupCard(list);
    NoDupCard(all);
    SubsetCard(Elems(list), Elems(all));
  }
}
