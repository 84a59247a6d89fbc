/** NumaArena as a whole: all its size classes over one memory, with the one counter their foreign bins share, and
    what ~NumaArena does to it. */
module NumaArena {
  import opened Arithmetic
  import opened Lists
  import opened Layout
  import opened SizeClassSpec
  import opened SlabHeap
  import opened SizeClassHeap
  import opened ForeignBins
  import T = SizeClassTable

  /** The class and its bin are as memory says. */
  ghost function Standing(words: map<Addr, Addr>, slabs: map<Addr, SlabHeader>, headers: map<Addr, BlockHeader>): iset<Part>
  {
    iset p: Part | SizeClassHeap.Picture(p.c, words, slabs) in Settled(p.size) && HeldList(words, p.bin, p.list, p.c, RawPtrs(headers)) in Held(p.size)
  }

  ghost predicate SlabsApart(a: seq<Addr>, b: seq<Addr>)
  {
    forall p, q {:trigger Apart(p, q)} | p in a && q in b :: Apart(p, q)
  }

  /** Draining the bin of one class leaves any other class of the arena as it was. */
  lemma OthersStand(p: Part, q: Part, w: map<Addr, Addr>, w': map<Addr, Addr>, s: map<Addr, SlabHeader>, s': map<Addr, SlabHeader>,
                    h: map<Addr, BlockHeader>, now: seq<Addr>)
    requires p in Standing(w, s, h) && q in Standing(w, s, h) && SlabsApart(p.c.slabs, q.c.slabs)
    requires OnlyAt(w, w', Set(p.list)) && Elsewhere(s, s', p.c.slabs, now) && forall x | x in now :: x in p.c.slabs
    ensures q in Standing(w', s', h)
  {
    forall b | b in p.list ensures b !in FreeSet(q.c) && b !in q.list { HeldApart(p, q, w, s, h, b); }
    forall x | x in q.c.slabs ensures x !in p.c.slabs { SlabNotShared(p, q, w, s, h, x); }
    IntactFrame(q.c, q.size, w, w', s, s', Set(p.list));
    ChainFrame(w, w', q.bin.head, q.list);
  }

  lemma SlabNotShared(p: Part, q: Part, w: map<Addr, Addr>, s: map<Addr, SlabHeader>, h: map<Addr, BlockHeader>, x: Addr)
    requires SlabsApart(p.c.slabs, q.c.slabs) && x in q.c.slabs
    ensures x !in p.c.slabs
  {
    assert x in p.c.slabs ==> Apart(x, x);
  }

  /** A block held in one class's bin is no block of another class. */
  lemma HeldApart(p: Part, q: Part, w: map<Addr, Addr>, s: map<Addr, SlabHeader>, h: map<Addr, BlockHeader>, b: Addr)
    requires p in Standing(w, s, h) && q in Standing(w, s, h) && SlabsApart(p.c.slabs, q.c.slabs) && b in p.list
    ensures b !in FreeSet(q.c) && b !in q.list
  {
    var own := RawPtrs(h);
    var x := Owner(own, b);
    assert Outstanding(p.c, p.size, x, b) && SlabOk(x, p.size, FreeOf(p.c, x));
    if b in FreeSet(q.c) {
      var y :| y in q.c.slabs && b in FreeOf(q.c, y);
      assert SlabOk(y, q.size, FreeOf(q.c, y)) && Apart(x, y);
      OwnerUnique(x, y, p.size, q.size, b);
    }
    assert b in q.list ==> Outstanding(q.c, q.size, x, b) && Apart(x, x);
  }

  /** All classes of the arena with their memory. */
  datatype Image = Image(parts: seq<Part>, words: map<Addr, Addr>, slabs: map<Addr, SlabHeader>, headers: map<Addr, BlockHeader>)

  ghost function Upright(): iset<Image>
  {
    iset m: Image | AllStand(m)
  }

  ghost predicate AllStand(m: Image)
  {
    && (forall i {:trigger m.parts[i]} | 0 <= i < |m.parts| :: m.parts[i] in Standing(m.words, m.slabs, m.headers))
    && PartsApart(m.parts)
  }

  /** What foreign_bytes_ should be: the bytes of all bins. */
  function Bytes(parts: seq<Part>): seq<int>
  {
    seq(|parts|, i requires 0 <= i < |parts| => parts[i].bin.bytes)
  }

  /** One turn of a drain, on the image: part i's bin is gone and its class has no slab it did not have. */
  lemma TurnKeeps(m: Image, i: nat, part: Part, m': Image, bytes: nat, bytes': nat)
    requires bytes == Sum(Bytes(m.parts)) && i < |m.parts| && bytes' == bytes - m.parts[i].bin.bytes && part.bin.bytes == 0
    requires m in Upright() && i < |m.parts| && m' == Image(m.parts[i := part], m'.words, m'.slabs, m.headers)
    requires part in Standing(m'.words, m'.slabs, m'.headers) && forall x | x in part.c.slabs :: x in m.parts[i].c.slabs
    requires OnlyAt(m.words, m'.words, Set(m.parts[i].list)) && Elsewhere(m.slabs, m'.slabs, m.parts[i].c.slabs, part.c.slabs)
    ensures m' in Upright() && bytes' == Sum(Bytes(m'.parts))
  {
    SumUpdate(Bytes(m.parts), Bytes(m'.parts), i);
    forall j | 0 <= j < |m'.parts| ensures m'.parts[j] in Standing(m'.words, m'.slabs, m'.headers) {
      if j != i { OthersStand(m.parts[i], m.parts[j], m.words, m'.words, m.slabs, m'.slabs, m.headers, part.c.slabs); }
    }
    TurnApart(m, i, part, m'.parts);
  }

  ghost predicate PartsApart(parts: seq<Part>)
  {
    forall i, j {:trigger parts[i], parts[j]} | 0 <= i < |parts| && 0 <= j < |parts| && i != j :: SlabsApart(parts[i].c.slabs, parts[j].c.slabs)
  }

  lemma TurnApart(m: Image, i: nat, part: Part, parts: seq<Part>)
    requires PartsApart(m.parts) && i < |m.parts| && parts == m.parts[i := part]
    requires forall x | x in part.c.slabs :: x in m.parts[i].c.slabs
    ensures PartsApart(parts)
  {
    forall j, k | 0 <= j < |parts| && 0 <= k < |parts| && j != k ensures SlabsApart(parts[j].c.slabs, parts[k].c.slabs) {
      FewerApart(m.parts[j].c.slabs, m.parts[k].c.slabs, parts[j].c.slabs, parts[k].c.slabs);
    }
  }

  lemma FewerApart(a: seq<Addr>, b: seq<Addr>, a': seq<Addr>, b': seq<Addr>)
    requires SlabsApart(a, b) && (forall x | x in a' :: x in a) && (forall x | x in b' :: x in b)
    ensures SlabsApart(a', b')
  {
  }

  lemma NothingHeld(p: Part, w: map<Addr, Addr>, own: map<Addr, Addr>)
    requires p.list == [] && HeldList(w, p.bin, p.list, p.c, own) in Held(p.size)
    ensures p.bin == ForeignBatch(NULL, 0, 0)
  {
  }

  function EmptyPart(size: nat): Part
  {
    Part(size, ClassState([], NULL, map[]), ForeignBatch(NULL, 0, 0), [])
  }

  /** Classes without slabs and with empty bins are as any memory says. */
  lemma EmptyUpright(m: Image)
    requires forall i | 0 <= i < |m.parts| :: Capacity(m.parts[i].size) > 0 && m.parts[i] == EmptyPart(m.parts[i].size)
    ensures m in Upright() && Sum(Bytes(m.parts)) == 0
  {
    forall i | 0 <= i < |m.parts| ensures m.parts[i] in Standing(m.words, m.slabs, m.headers) {
      EmptyStands(m.parts[i].size, m.words, m.slabs, m.headers);
    }
    SumZero(Bytes(m.parts));
  }

  lemma EmptyStands(size: nat, w: map<Addr, Addr>, s: map<Addr, SlabHeader>, h: map<Addr, BlockHeader>)
    requires Capacity(size) > 0
    ensures EmptyPart(size) in Standing(w, s, h)
  {
  }

  /** The loop over kClassSizes that builds the classes. */
  method MakeClasses(table: T.Config, sizes: seq<nat>, nodeId: nat, foreignFreelistEnabled: bool, mem: Memory, counter: Counter) returns (classes: seq<ArenaClass>)
    requires T.Wf(table) && sizes == T.ClassSizes(table) && forall i | 0 <= i < |sizes| :: Capacity(sizes[i]) > 0
    ensures |classes| == |sizes|
    ensures forall i | 0 <= i < |classes| :: classes[i].mem == mem && classes[i].counter == counter && classes[i].Fitted()
    ensures forall i | 0 <= i < |classes| :: classes[i].AsPart() == EmptyPart(sizes[i])
    ensures forall i, j | 0 <= i < j < |classes| :: classes[i] != classes[j] && classes[i].small != classes[j].small
    ensures forall i | 0 <= i < |classes| :: fresh(classes[i]) && fresh(classes[i].small)
  {
    classes := [];
    while |classes| < |sizes|
      invariant |classes| <= |sizes|
      invariant forall i | 0 <= i < |classes| :: classes[i].mem == mem && classes[i].counter == counter && classes[i].Fitted()
      invariant forall i | 0 <= i < |classes| :: classes[i].AsPart() == EmptyPart(sizes[i])
      invariant forall i, j | 0 <= i < j < |classes| :: classes[i] != classes[j] && classes[i].small != classes[j].small
      invariant forall i | 0 <= i < |classes| :: fresh(classes[i]) && fresh(classes[i].small)
    {
      var made := MakeClass(table, sizes, |classes|, nodeId, foreignFreelistEnabled, mem, counter);
      classes := classes + [made];
    }
  }

  method MakeClass(table: T.Config, sizes: seq<nat>, i: nat, nodeId: nat, foreignFreelistEnabled: bool, mem: Memory, counter: Counter) returns (made: ArenaClass)
    requires T.Wf(table) && sizes == T.ClassSizes(table) && i < |sizes| && Capacity(sizes[i]) > 0
    ensures made.mem == mem && made.counter == counter && made.Fitted() && made.AsPart() == EmptyPart(sizes[i])
    ensures fresh(made) && fresh(made.small)
  {
    T.RoundingIsIdempotent(table, i);
    made := new ArenaClass(table, sizes[i], nodeId, foreignFreelistEnabled, mem, counter);
    NothingHeld(made.AsPart(), mem.words, RawPtrs(mem.headers));
  }

  class NumaArena {
    const mem: Memory
    const counter: Counter
    const classes: seq<ArenaClass>

    /** NumaArena's constructor, over memory of its own: a class per entry of kClassSizes, empty bins, counter zero. */
    constructor (table: T.Config, sizes: seq<nat>, nodeId: nat, foreignFreelistEnabled: bool)
      requires T.Wf(table) && sizes == T.ClassSizes(table) && forall i | 0 <= i < |sizes| :: Capacity(sizes[i]) > 0
      ensures Valid() && |classes| == |sizes| && counter.bytes == 0
      ensures forall i | 0 <= i < |classes| :: PartOf(i) == EmptyPart(sizes[i])
    {
      var memory := new Memory();
      var foreign := new Counter();
      var made := MakeClasses(table, sizes, nodeId, foreignFreelistEnabled, memory, foreign);
      mem, counter, classes := memory, foreign, made;
      new;
      EmptyUpright(Now());
    }

    ghost predicate Wired()
    {
      && (forall i | 0 <= i < |classes| :: classes[i].mem == mem && classes[i].counter == counter && classes[i].Fitted())
      && forall i, j | 0 <= i < j < |classes| :: classes[i] != classes[j] && classes[i].small != classes[j].small
    }

    ghost function Parts(): set<object>
    {
      (set c: object | c in classes) + (set c | c in classes :: c.small)
    }

    ghost function PartOf(i: nat): Part
      requires i < |classes|
      reads classes[i], classes[i].small
    {
      classes[i].AsPart()
    }

    ghost function AllParts(): seq<Part>
      reads Parts()
    {
      seq(|classes|, i requires 0 <= i < |classes| reads Parts() => PartOf(i))
    }

    ghost function Now(): Image
      reads Parts(), mem
    {
      Image(AllParts(), mem.words, mem.slabs, mem.headers)
    }

    /** Bins are within the high watermark, and empty when foreign freelists are off. */
    ghost predicate BinFits(i: nat)
      requires i < |classes|
      reads classes[i]
    {
      classes[i].bytes <= classes[i].High() && (!classes[i].foreignFreelistEnabled ==> classes[i].bin == [])
    }

    ghost predicate Valid()
      reads Parts(), mem, counter
    {
      && Wired() && Now() in Upright() && counter.bytes == Sum(Bytes(AllParts()))
      && forall i {:trigger BinFits(i)} | 0 <= i < |classes| :: BinFits(i)
    }

    /** Each class with its bin is as ForeignBins.ArenaClass wants it: the shared counter covers its bytes. */
    lemma ClassReady(i: nat)
      requires Valid() && i < |classes|
      ensures classes[i].Valid() && Now() in Upright() && AllParts()[i] == PartOf(i)
    {
      assert AllParts()[i] == PartOf(i) && BinFits(i);
      SumBounds(Bytes(AllParts()), i);
      assert Bytes(AllParts())[i] == classes[i].bytes;
    }

    /** NumaArena::drain_all_foreign: one turn of the loop per class. Afterwards every bin is empty, the counter is
        zero, and each class is as if its bin had been freed in one batch. */
    method DrainAllForeign()
      requires Valid()
      modifies Parts(), mem`words, mem`slabs, counter
      ensures Valid() && counter.bytes == 0
      ensures forall i | 0 <= i < |classes| :: PartOf(i) in Emptied(old(PartOf(i)), mem.Owners())
    {
      ghost var was, own := AllParts(), mem.Owners();
      var i := 0;
      while i < |classes|
        invariant 0 <= i <= |classes| && Valid() && mem.Owners() == own
        invariant AllParts() in EmptiedUpTo(was, own, i)
      {
        ghost var now := AllParts();
        DrainTurn(i);
        OneMoreEmptied(was, own, i, now, PartOf(i));
        i := i + 1;
      }
      AllEmptied(was, own, AllParts());
      forall j | 0 <= j < |classes| ensures PartOf(j) in Emptied(was[j], own) { assert AllParts()[j] == PartOf(j); }
    }

    /** One turn. */
    method DrainTurn(i: nat)
      requires Valid() && i < |classes|
      modifies classes[i], classes[i].small, mem`words, mem`slabs, counter
      ensures Valid() && PartOf(i) in Emptied(old(PartOf(i)), mem.Owners())
      ensures AllParts() == old(AllParts())[i := PartOf(i)]
    {
      ghost var m := Now();
      ClassReady(i);
      forall j | 0 <= j < |classes| ensures m.parts[j] == PartOf(j) {}
      DrainClass(i);
      forall j | 0 <= j < |classes| && j != i ensures PartOf(j) == m.parts[j] {}
      assert AllParts() == m.parts[i := PartOf(i)];
      ClassStands(i);
      TurnKeeps(m, i, PartOf(i), Now(), old(counter.bytes), counter.bytes);
      forall j | 0 <= j < |classes| ensures BinFits(j) { assert j != i ==> old(BinFits(j)); }
    }

    lemma ClassStands(i: nat)
      requires Wired() && i < |classes| && classes[i].Valid()
      ensures PartOf(i) in Standing(mem.words, mem.slabs, mem.headers) && BinFits(i)
    {
    }

    /** detach, subtract, deallocate_batch for class i. */
    method DrainClass(i: nat)
      requires Wired() && i < |classes| && classes[i].Valid()
      modifies classes[i], classes[i].small, mem`words, mem`slabs, counter
      ensures classes[i].Valid() && PartOf(i) in Emptied(old(PartOf(i)), mem.Owners())
      ensures counter.bytes == old(counter.bytes) - old(classes[i].bytes)
      ensures (forall x | x in classes[i].small.slabs :: x in old(classes[i].small.slabs))
      ensures OnlyAt(old(mem.words), mem.words, Set(old(classes[i].bin)))
      ensures Elsewhere(old(mem.slabs), mem.slabs, old(classes[i].small.slabs), classes[i].small.slabs)
    {
      ghost var was := PartOf(i);
      classes[i].DrainForeignBin();
      TurnSlabs(was, PartOf(i), mem.Owners());
      NothingHeld(PartOf(i), mem.words, mem.Owners());
    }
  }

  /** A class after its bin was freed in one batch. */
  ghost function Emptied(was: Part, own: map<Addr, Addr>): iset<Part>
  {
    iset p: Part | IsEmptied(was, own, p)
  }

  ghost predicate IsEmptied(was: Part, own: map<Addr, Addr>, p: Part)
  {
    && p.size == was.size && p.list == [] && p.bin == ForeignBatch(NULL, 0, 0)
    && (forall b | b in was.list :: Owner(own, b) in was.c.free) && p.c == FreeBatch(was.c, was.size, own, was.list)
  }

  /** The parts with the bins before i emptied. */
  ghost function EmptiedUpTo(was: seq<Part>, own: map<Addr, Addr>, i: nat): iset<seq<Part>>
  {
    iset now: seq<Part> | |now| == |was| && i <= |was| && (forall j | 0 <= j < i :: now[j] in Emptied(was[j], own)) && now[i..] == was[i..]
  }

  lemma OneMoreEmptied(was: seq<Part>, own: map<Addr, Addr>, i: nat, now: seq<Part>, p: Part)
    requires now in EmptiedUpTo(was, own, i) && i < |was| && p in Emptied(now[i], own)
    ensures now[i := p] in EmptiedUpTo(was, own, i + 1)
  {
    assert now[i] == now[i..][0] && was[i] == was[i..][0];
    assert now[i := p][i + 1..] == now[i..][1..] && was[i + 1..] == was[i..][1..];
  }

  lemma AllEmptied(was: seq<Part>, own: map<Addr, Addr>, now: seq<Part>)
    requires now in EmptiedUpTo(was, own, |was|)
    ensures Sum(Bytes(now)) == 0 && |now| == |was| && forall j | 0 <= j < |was| :: now[j] in Emptied(was[j], own)
  {
    SumZero(Bytes(now));
  }

  lemma TurnSlabs(was: Part, p: Part, own: map<Addr, Addr>)
    requires Ok(was.c, was.size) && BatchOk(was.c, was.size, own, was.list)
    requires (forall b | b in was.list :: Owner(own, b) in was.c.free) && p.c == FreeBatch(was.c, was.size, own, was.list)
    ensures forall x | x in p.c.slabs :: x in was.c.slabs
  {
    FreeBatchProperties(was.c, was.size, own, was.list);
  }
}
