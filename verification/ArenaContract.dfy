/** What the thread cache assumes of the arenas is what the arena classes do: for any number of classes and
    nodes over one memory, an operation on one class meets the contract of ThreadCache.Arenas for all of them. */
module ArenaContract {
  import opened Lists
  import opened Layout
  import opened SizeClassSpec
  import opened SlabHeap
  import opened ForeignBins
  import C = ThreadCache

  /** All classes of all arenas, and the memory they share. */
  datatype Arenas = Arenas(parts: seq<Part>, words: map<Addr, Addr>, headers: map<Addr, BlockHeader>)

  function ViewOf(a: Arenas, i: nat): View
    requires i < |a.parts|
  {
    View(a.parts[i].c, a.parts[i].list, a.words, a.headers)
  }

  ghost function UsersOf(a: Arenas, i: nat): iset<Addr>
    requires i < |a.parts|
  {
    Users(a.parts[i].size, ViewOf(a, i))
  }

  /** Every class is sound, and slabs of different classes do not overlap. */
  ghost predicate Sound(a: Arenas)
  {
    && (forall i {:trigger a.parts[i]} | 0 <= i < |a.parts| :: Ok(a.parts[i].c, a.parts[i].size))
    && forall i, j, p, q {:trigger p in a.parts[i].c.slabs, q in a.parts[j].c.slabs}
         | 0 <= i < |a.parts| && 0 <= j < |a.parts| && i != j && p in a.parts[i].c.slabs && q in a.parts[j].c.slabs :: Apart(p, q)
  }

  /** `out` is what users hold of all classes, with the room they have in each block. */
  ghost predicate Describes(a: Arenas, out: map<Addr, nat>)
  {
    && (forall i, b {:trigger b in UsersOf(a, i)} | 0 <= i < |a.parts| && b in UsersOf(a, i) :: b in out && out[b] == Room(a.parts[i].size))
    && forall b | b in out :: HeldOfSome(a, b)
  }

  ghost predicate HeldOfSome(a: Arenas, b: Addr)
  {
    exists i {:trigger UsersOf(a, i)} :: 0 <= i < |a.parts| && b in UsersOf(a, i)
  }

  /** An operation on class i alone: the other classes and their bins are as they were. */
  ghost predicate OnlyClass(a: Arenas, a': Arenas, i: nat)
  {
    && |a'.parts| == |a.parts| && i < |a.parts| && a'.parts[i].size == a.parts[i].size
    && (forall j | 0 <= j < |a.parts| && j != i :: a'.parts[j] == a.parts[j])
    && Untouched(a.parts[i].size, ViewOf(a, i), ViewOf(a', i))
  }

  /** A user's block lies in a slab of its class, away from the blocks of any other class. */
  lemma OtherClassAway(a: Arenas, a': Arenas, i: nat, j: nat, p: Addr, b: Addr, y: Addr)
    requires Sound(a) && Sound(a') && OnlyClass(a, a', i) && j < |a.parts| && j != i
    requires p in a.parts[j].c.slabs && IsBlock(p, a.parts[j].size, b)
    requires y in Mine(a.parts[i].size, ViewOf(a, i), ViewOf(a', i))
    ensures y != b && !(Link(b) <= Link(y) < Link(b) + Room(a.parts[j].size))
  {
    var size, size' := a.parts[j].size, a.parts[i].size;
    assert SlabOk(p, size, FreeOf(a.parts[j].c, p));
    BlockBounds(p, size, b);
    var q :| IsBlock(q, size', y) && (q in a.parts[i].c.slabs || q in a'.parts[i].c.slabs);
    if q in a.parts[i].c.slabs {
      assert SlabOk(q, size', FreeOf(a.parts[i].c, q)) && Apart(q, p);
    } else {
      assert p in a'.parts[j].c.slabs && SlabOk(q, size', FreeOf(a'.parts[i].c, q)) && Apart(q, p);
    }
    BlockBounds(q, size', y);
  }

  /** Users of the other classes hold what they held, unchanged. */
  lemma OthersKeep(a: Arenas, a': Arenas, i: nat, j: nat)
    requires Sound(a) && Sound(a') && OnlyClass(a, a', i) && j < |a.parts| && j != i
    ensures UsersOf(a', j) == UsersOf(a, j)
    ensures forall b | b in UsersOf(a, j) :: PayloadKept(a.words, a'.words, b, Room(a.parts[j].size))
    ensures forall b | b in UsersOf(a, j) && b in a.headers :: b in a'.headers && a'.headers[b] == a.headers[b]
  {
    var mine := Mine(a.parts[i].size, ViewOf(a, i), ViewOf(a', i));
    var size, c := a.parts[j].size, a.parts[j].c;
    forall p, b | p in c.slabs && IsBlock(p, size, b) ensures b !in mine {
      if b in mine { OtherClassAway(a, a', i, j, p, b, b); }
    }
    forall b ensures b in UsersOf(a', j) <==> b in UsersOf(a, j) { SameOwner(a, a', mine, c, size, b); }
    forall b | b in UsersOf(a, j) ensures PayloadKept(a.words, a'.words, b, Room(size)) {
      forall x | Link(b) <= x < Link(b) + Room(size) ensures Load(a'.words, x) == Load(a.words, x) {
        var y := x - HEADER;
        if y in mine { OtherClassAway(a, a', i, j, Owner(RawPtrs(a.headers), b), b, y); }
        assert Load(a'.words, Link(y)) == Load(a.words, Link(y));
      }
    }
  }

  lemma SameOwner(a: Arenas, a': Arenas, mine: iset<Addr>, c: ClassState, size: nat, b: Addr)
    requires Ok(c, size) && HeadersOnlyAt(a.headers, a'.headers, mine)
    requires forall p | p in c.slabs && IsBlock(p, size, b) :: b !in mine
    ensures Outstanding(c, size, Owner(RawPtrs(a'.headers), b), b) <==> Outstanding(c, size, Owner(RawPtrs(a.headers), b), b)
  {
  }

  lemma ClassKeeps(a: Arenas, a': Arenas, i: nat, out: map<Addr, nat>, b: Addr)
    requires Sound(a) && Sound(a') && OnlyClass(a, a', i) && Describes(a, out) && b in out
    requires b in UsersOf(a, i) ==> b in UsersOf(a', i)
    ensures PayloadKept(a.words, a'.words, b, out[b]) && (b in a.headers ==> b in a'.headers && a'.headers[b] == a.headers[b])
  {
    assert HeldOfSome(a, b);
    var j :| 0 <= j < |a.parts| && b in UsersOf(a, j);
    if j != i { OthersKeep(a, a', i, j); }
  }

  /** NumaArena::allocate of any class does what the cache assumes: a new block, apart from all that are out, and
      every block that was out is untouched, whatever slab was mapped or bin drained meanwhile. */
  lemma AllocateMeetsContract(a: Arenas, a': Arenas, i: nat, b: Addr, out: map<Addr, nat>)
    requires Sound(a) && Sound(a') && OnlyClass(a, a', i) && Describes(a, out)
    requires ViewOf(a', i) in UsersGain(a.parts[i].size, ViewOf(a, i), b)
    ensures C.OutKept(out, a.words, a'.words, a.headers, a'.headers)
    ensures Describes(a', out[b := Room(a.parts[i].size)]) && out[b := Room(a.parts[i].size)] in C.Spread()
    ensures C.NewRange(out, b, Room(a.parts[i].size))
  {
    forall x | x in out
      ensures PayloadKept(a.words, a'.words, x, out[x]) && (x in a.headers ==> x in a'.headers && a'.headers[x] == a.headers[x])
    {
      ClassKeeps(a, a', i, out, x);
    }
    NewBlockDescribed(a, a', i, b, out);
  }

  lemma NewBlockDescribed(a: Arenas, a': Arenas, i: nat, b: Addr, out: map<Addr, nat>)
    requires Sound(a) && Sound(a') && OnlyClass(a, a', i) && Describes(a, out)
    requires b !in UsersOf(a, i) && UsersOf(a', i) == UsersOf(a, i) + iset{b}
    ensures Describes(a', out[b := Room(a.parts[i].size)]) && out[b := Room(a.parts[i].size)] in C.Spread()
    ensures C.NewRange(out, b, Room(a.parts[i].size))
  {
    assert b in UsersOf(a', i);
    OthersAllKeep(a, a', i);
    OneClassOnly(a, a', i, b, out);
    OneMore(a, a', i, b, out);
    UsersSpread(a', out[b := Room(a.parts[i].size)]);
    NewApart(a', out, b, out[b := Room(a.parts[i].size)]);
    NotNullBlock(a', i, b);
  }

  lemma NotNullBlock(a: Arenas, i: nat, b: Addr)
    requires Sound(a) && i < |a.parts| && b in UsersOf(a, i)
    ensures b != NULL
  {
    var p := Owner(RawPtrs(a.headers), b);
    assert SlabOk(p, a.parts[i].size, FreeOf(a.parts[i].c, p));
    BlockBounds(p, a.parts[i].size, b);
  }

  /** The new block was nobody's. */
  lemma OneClassOnly(a: Arenas, a': Arenas, i: nat, b: Addr, out: map<Addr, nat>)
    requires Sound(a) && Sound(a') && OnlyClass(a, a', i) && Describes(a, out)
    requires b in UsersOf(a', i) && b !in UsersOf(a, i)
    ensures b !in out
  {
    if b in out {
      assert HeldOfSome(a, b);
      var j :| 0 <= j < |a.parts| && b in UsersOf(a, j);
      OthersKeep(a, a', i, j);
      assert b in UsersOf(a', j);
      UsersApart(a', i, j, b, b);
    }
  }

  /** Blocks that users hold, of whatever classes, do not overlap, and no two classes claim the same. */
  lemma UsersApart(a: Arenas, i: nat, j: nat, b: Addr, d: Addr)
    requires Sound(a) && i < |a.parts| && j < |a.parts| && b in UsersOf(a, i) && d in UsersOf(a, j) && (b != d || i != j)
    ensures C.RangesApart(Link(b), Room(a.parts[i].size), Link(d), Room(a.parts[j].size)) && b != d
  {
    var own := RawPtrs(a.headers);
    var p, q := Owner(own, b), Owner(own, d);
    assert SlabOk(p, a.parts[i].size, FreeOf(a.parts[i].c, p)) && SlabOk(q, a.parts[j].size, FreeOf(a.parts[j].c, q));
    BlockBounds(p, a.parts[i].size, b);
    BlockBounds(q, a.parts[j].size, d);
    if i == j { PayloadsApart(a.parts[i].c, a.parts[i].size, p, b, q, d); } else { assert Apart(p, q); }
  }

  lemma UsersSpread(a: Arenas, out: map<Addr, nat>)
    requires Sound(a) && Describes(a, out)
    ensures out in C.Spread()
  {
    forall b | b in out ensures out[b] >= LINK_SIZE {
      assert HeldOfSome(a, b);
    }
    forall b, d | b in out && d in out && b != d ensures C.RangesApart(Link(b), out[b], Link(d), out[d]) {
      assert HeldOfSome(a, b) && HeldOfSome(a, d);
      var i :| 0 <= i < |a.parts| && b in UsersOf(a, i);
      var j :| 0 <= j < |a.parts| && d in UsersOf(a, j);
      UsersApart(a, i, j, b, d);
    }
  }

  lemma NewApart(a: Arenas, out: map<Addr, nat>, b: Addr, out': map<Addr, nat>)
    requires out' in C.Spread() && b in out' && b !in out && out' == out[b := out'[b]]
    ensures forall c {:trigger out[c]} | c in out :: C.RangesApart(Link(b), out'[b], Link(c), out[c])
    ensures out'[b] >= LINK_SIZE
  {
    forall c | c in out ensures C.RangesApart(Link(b), out'[b], Link(c), out[c]) { assert out'[c] == out[c] && out'[b] == out'[b]; }
  }

  /** NumaArena::deallocate of a small block, local or foreign, with or without an overflow drain: the block is no
      longer out, and every other block that is out is untouched. */
  lemma DeallocateMeetsContract(a: Arenas, a': Arenas, i: nat, b: Addr, out: map<Addr, nat>)
    requires Sound(a) && Sound(a') && OnlyClass(a, a', i) && Describes(a, out)
    requires ViewOf(a', i) in UsersLose(a.parts[i].size, ViewOf(a, i), b)
    ensures b in out && Describes(a', out - {b}) && out - {b} in C.Spread()
    ensures C.OutKept(out - {b}, a.words, a'.words, a.headers, a'.headers)
  {
    var out' := out - {b};
    assert b in UsersOf(a, i) && b in out;
    forall x | x in out'
      ensures PayloadKept(a.words, a'.words, x, out'[x]) && (x in a.headers ==> x in a'.headers && a'.headers[x] == a.headers[x])
    {
      assert out'[x] == out[x];
      ClassKeeps(a, a', i, out, x);
    }
    DescribesWithout(a, a', i, b, out);
    UsersSpread(a', out');
  }

  lemma DescribesWithout(a: Arenas, a': Arenas, i: nat, b: Addr, out: map<Addr, nat>)
    requires Sound(a) && Sound(a') && OnlyClass(a, a', i) && Describes(a, out)
    requires b in UsersOf(a, i) && UsersOf(a', i) == UsersOf(a, i) - iset{b}
    ensures Describes(a', out - {b})
  {
    OthersAllKeep(a, a', i);
    forall j | 0 <= j < |a.parts| && j != i ensures b !in UsersOf(a, j) {
      if b in UsersOf(a, j) { UsersApart(a, i, j, b, b); }
    }
    OneFewer(a, a', i, b, out);
  }

  lemma OthersAllKeep(a: Arenas, a': Arenas, i: nat)
    requires Sound(a) && Sound(a') && OnlyClass(a, a', i)
    ensures SameOthers(a, a', i)
  {
    forall j | 0 <= j < |a.parts| && j != i ensures UsersOf(a', j) == UsersOf(a, j) { OthersKeep(a, a', i, j); }
  }

  ghost predicate SameOthers(a: Arenas, a': Arenas, i: nat)
  {
    && |a'.parts| == |a.parts| && i < |a.parts| && (forall j | 0 <= j < |a.parts| :: a'.parts[j].size == a.parts[j].size)
    && forall j {:trigger UsersOf(a', j)} | 0 <= j < |a.parts| && j != i :: UsersOf(a', j) == UsersOf(a, j)
  }

  lemma OneFewer(a: Arenas, a': Arenas, i: nat, b: Addr, out: map<Addr, nat>)
    requires SameOthers(a, a', i) && Describes(a, out) && UsersOf(a', i) == UsersOf(a, i) - iset{b}
    requires forall j | 0 <= j < |a.parts| && j != i :: b !in UsersOf(a, j)
    ensures Describes(a', out - {b})
  {
    forall x | x in out - {b} ensures HeldOfSome(a', x) {
      assert HeldOfSome(a, x);
      var j :| 0 <= j < |a.parts| && x in UsersOf(a, j);
      assert x in UsersOf(a', j);
    }
  }

  lemma OneMore(a: Arenas, a': Arenas, i: nat, b: Addr, out: map<Addr, nat>)
    requires SameOthers(a, a', i) && Describes(a, out) && UsersOf(a', i) == UsersOf(a, i) + iset{b} && b !in out
    ensures Describes(a', out[b := Room(a.parts[i].size)])
  {
    assert b in UsersOf(a', i) && HeldOfSome(a', b);
    forall x | x in out ensures HeldOfSome(a', x) {
      assert HeldOfSome(a, x);
      var j :| 0 <= j < |a.parts| && x in UsersOf(a, j);
      assert x in UsersOf(a', j);
    }
    OneMoreRoom(a, a', i, b, out);
  }

  lemma OneMoreRoom(a: Arenas, a': Arenas, i: nat, b: Addr, out: map<Addr, nat>)
    requires SameOthers(a, a', i) && Describes(a, out) && UsersOf(a', i) == UsersOf(a, i) + iset{b} && b !in out
    ensures forall j, x {:trigger x in UsersOf(a', j)} | 0 <= j < |a'.parts| && x in UsersOf(a', j) ::
      x in out[b := Room(a.parts[i].size)] && out[b := Room(a.parts[i].size)][x] == Room(a'.parts[j].size)
  {
    forall j, x | 0 <= j < |a'.parts| && x in UsersOf(a', j)
      ensures x in out[b := Room(a.parts[i].size)] && out[b := Room(a.parts[i].size)][x] == Room(a'.parts[j].size)
    {
      assert x in UsersOf(a, j) || (j == i && x == b);
    }
  }
}
