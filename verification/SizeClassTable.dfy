/** The small-object size-class table, for any thresholds and alignments that divide as the
    closed-form index assumes. */
module SizeClassTable {
  import opened Arithmetic

  /** SizeClassConfig: three thresholds, each with its rounding granularity. */
  datatype Config = Config(t1: nat, t2: nat, t3: nat, a1: nat, a2: nat, a3: nat)

  /** What `class_index_for_size` silently relies on. */
  predicate Wf(g: Config)
  {
    && 0 < g.a1 && 0 < g.a2 && 0 < g.a3
    && 2 <= g.t1 < g.t2 < g.t3
    && g.t1 % g.a1 == 0
    && g.t1 % g.a2 == 0 && g.t2 % g.a2 == 0
    && g.t2 % g.a3 == 0 && g.t3 % g.a3 == 0
  }

  /** The constants compiled into the allocator. */
  const REPOSITORY := Config(256, 1024, 4096, 16, 64, 256)

  /** SizeClassTable::class_size. */
  function ClassSize(g: Config, size: nat): nat
  {
    if size <= g.t1 then AlignUp(size, g.a1)
    else if size <= g.t2 then AlignUp(size, g.a2)
    else AlignUp(size, g.a3)
  }

  datatype Lookup = Index(value: nat) | OutOfRange

  /** SizeClassTable::class_index_for_size; sizes above the last threshold throw. */
  function ClassIndex(g: Config, size: nat): Lookup
    requires Wf(g)
  {
    var s := if size == 0 then 1 else size;
    if s > g.t3 then OutOfRange else Index(IndexInRange(g, s))
  }

  function IndexInRange(g: Config, s: nat): nat
    requires Wf(g) && 1 <= s <= g.t3
  {
    Counts(g);
    if s <= g.t1 then
      RoundsUp(s, 0, g.a1);
      AlignUp(s, g.a1) / g.a1 - 1
    else if s <= g.t2 then
      RoundsUp(s, g.t1, g.a2);
      g.t1 / g.a1 + (AlignUp(s, g.a2) - g.t1) / g.a2 - 1
    else
      RoundsUp(s, g.t2, g.a3);
      g.t1 / g.a1 + (g.t2 - g.t1) / g.a2 + (AlignUp(s, g.a3) - g.t2) / g.a3 - 1
  }

  lemma Counts(g: Config)
    requires Wf(g)
    ensures g.t1 / g.a1 >= 1 && (g.t2 - g.t1) / g.a2 >= 1
  {
    SumOfMultiples(g.t2, g.t1, g.a2);
    PositiveQuotient(g.t1, g.a1);
    PositiveQuotient(g.t2 - g.t1, g.a2);
  }

  lemma PositiveQuotient(x: int, d: int)
    requires d > 0 && x > 0 && x % d == 0
    ensures x / d >= 1
  {
    DivMod(x, d);
    if x / d <= 0 { MulMono(x / d, 0, d); }
  }

  lemma RoundsUp(s: nat, lower: nat, a: nat)
    requires a > 0 && lower < s && lower % a == 0
    ensures AlignUp(s, a) > lower && (AlignUp(s, a) - lower) % a == 0 && (AlignUp(s, a) - lower) / a >= 1
  {
    SumOfMultiples(AlignUp(s, a), lower, a);
    PositiveQuotient(AlignUp(s, a) - lower, a);
  }

  // ---- the scanned array ----

  function LastOf(a: seq<nat>): nat
  {
    if a == [] then 0 else a[|a| - 1]
  }

  /** The distinct class sizes met when scanning sizes 1..n in order. */
  ghost function Scanned(g: Config, n: nat): seq<nat>
  {
    if n == 0 then []
    else
      var before := Scanned(g, n - 1);
      if ClassSize(g, n) != LastOf(before) then before + [ClassSize(g, n)] else before
  }

  /** count_distinct_size_classes. */
  method CountDistinctSizeClasses(g: Config) returns (count: nat)
    ensures count == |Scanned(g, g.t3)|
  {
    count := 0;
    var last: nat := 0;
    var s := 1;
    while s <= g.t3
      invariant 1 <= s <= g.t3 + 1
      invariant count == |Scanned(g, s - 1)| && last == LastOf(Scanned(g, s - 1))
    {
      var cls := ClassSize(g, s);
      if cls != last {
        last := cls;
        count := count + 1;
      }
      s := s + 1;
    }
  }

  /** The initialiser of kClassSizes: an array of kNumSizeClasses entries, filled left to right. */
  method BuildClassSizes(g: Config, count: nat) returns (arr: array<nat>)
    requires count == |Scanned(g, g.t3)|
    ensures fresh(arr) && arr[..] == Scanned(g, g.t3)
  {
    arr := new nat[count](_ => 0);
    var idx := 0;
    var last: nat := 0;
    var s := 1;
    while s <= g.t3
      invariant 1 <= s <= g.t3 + 1
      invariant idx == |Scanned(g, s - 1)| <= |Scanned(g, g.t3)|
      invariant arr[..idx] == Scanned(g, s - 1) && last == LastOf(Scanned(g, s - 1))
    {
      ScannedGrows(g, s, g.t3);
      var cls := ClassSize(g, s);
      if cls != last {
        arr[idx] := cls;
        idx := idx + 1;
        last := cls;
      }
      s := s + 1;
    }
    assert arr[..] == arr[..idx];
  }

  lemma {:induction false} ScannedGrows(g: Config, m: nat, n: nat)
    requires m <= n
    ensures |Scanned(g, m)| <= |Scanned(g, n)| && Scanned(g, n)[..|Scanned(g, m)|] == Scanned(g, m)
  {
    if m < n {
      ScannedGrows(g, m, n - 1);
      assert Scanned(g, n)[..|Scanned(g, n - 1)|] == Scanned(g, n - 1);
      assert Scanned(g, n)[..|Scanned(g, m)|] == Scanned(g, n - 1)[..|Scanned(g, m)|];
    }
  }

  lemma ClassSizeBounds(g: Config, s: nat)
    requires Wf(g) && 1 <= s <= g.t3
    ensures 1 <= s <= ClassSize(g, s) <= g.t3
    ensures s <= g.t1 ==> ClassSize(g, s) <= g.t1
    ensures g.t1 < s <= g.t2 ==> g.t1 < ClassSize(g, s) <= g.t2
    ensures g.t2 < s ==> g.t2 < ClassSize(g, s)
  {
    if s <= g.t1 {
      AlignUpLeast(s, g.a1, g.t1);
    } else if s <= g.t2 {
      AlignUpLeast(s, g.a2, g.t2);
    } else {
      AlignUpLeast(s, g.a3, g.t3);
    }
  }

  /** One step of the scan: either the class is the same and so is the index, or both move up by one slot. */
  lemma IndexStep(g: Config, s: nat)
    requires Wf(g) && 1 <= s < g.t3
    ensures ClassSize(g, s + 1) == ClassSize(g, s) ==> IndexInRange(g, s + 1) == IndexInRange(g, s)
    ensures ClassSize(g, s + 1) != ClassSize(g, s) ==>
              ClassSize(g, s) < ClassSize(g, s + 1) && IndexInRange(g, s + 1) == IndexInRange(g, s) + 1
  {
    if s < g.t1 {
      BucketStep(s, 0, g.a1);
    } else if s == g.t1 {
      StepAtFirstBound(g);
    } else if s < g.t2 {
      BucketStep(s, g.t1, g.a2);
    } else if s == g.t2 {
      StepAtSecondBound(g);
    } else {
      BucketStep(s, g.t2, g.a3);
    }
  }

  lemma StepAtFirstBound(g: Config)
    requires Wf(g)
    ensures ClassSize(g, g.t1) < ClassSize(g, g.t1 + 1)
    ensures IndexInRange(g, g.t1 + 1) == IndexInRange(g, g.t1) + 1
  {
    AlignUpFixed(g.t1, g.a1);
    AlignUpStep(g.t1, g.a2);
    DivUnique(g.a2, g.a2, 1, 0);
  }

  lemma StepAtSecondBound(g: Config)
    requires Wf(g)
    ensures ClassSize(g, g.t2) < ClassSize(g, g.t2 + 1)
    ensures IndexInRange(g, g.t2 + 1) == IndexInRange(g, g.t2) + 1
  {
    AlignUpFixed(g.t2, g.a2);
    AlignUpStep(g.t2, g.a3);
    DivUnique(g.a3, g.a3, 1, 0);
  }

  lemma BucketStep(s: nat, lower: nat, a: nat)
    requires a > 0 && lower <= s && lower % a == 0
    ensures s % a == 0 ==> AlignUp(s, a) == s && AlignUp(s + 1, a) == s + a
    ensures s % a != 0 ==> AlignUp(s + 1, a) == AlignUp(s, a)
    ensures (AlignUp(s + 1, a) - lower) / a ==
            (AlignUp(s, a) - lower) / a + (if s % a == 0 then 1 else 0)
  {
    AlignUpStep(s, a);
    AlignUpFixed(s, a);
    if s % a == 0 {
      SumOfMultiples(s, lower, a);
      SumOfMultiples(s - lower, a, a);
      DivUnique(a, a, 1, 0);
    }
  }

  /** The scan up to s has met exactly the classes 0..index(s), and the last one is class_size(s). */
  lemma {:induction false} ScannedUpTo(g: Config, s: nat)
    requires Wf(g) && 1 <= s <= g.t3
    ensures |Scanned(g, s)| == IndexInRange(g, s) + 1
    ensures LastOf(Scanned(g, s)) == ClassSize(g, s)
    ensures forall i | 0 <= i < |Scanned(g, s)| :: 0 < Scanned(g, s)[i] <= ClassSize(g, s)
    ensures forall i, j | 0 <= i < j < |Scanned(g, s)| :: Scanned(g, s)[i] < Scanned(g, s)[j]
  {
    ClassSizeBounds(g, s);
    if s == 1 {
      assert Scanned(g, 0) == [];
      BucketStep(0, 0, g.a1);
      DivUnique(0, g.a1, 0, 0);
    } else {
      ScannedUpTo(g, s - 1);
      IndexStep(g, s - 1);
    }
  }

  /** kClassSizes. */
  ghost function ClassSizes(g: Config): seq<nat>
  {
    Scanned(g, g.t3)
  }

  /** The closed form and the scanned array agree: kClassSizes[class_index_for_size(s)] == class_size(s),
      and the array is strictly increasing. */
  lemma ClosedFormAgreesWithTable(g: Config, size: nat)
    requires Wf(g) && size <= g.t3
    ensures forall i, j | 0 <= i < j < |ClassSizes(g)| :: ClassSizes(g)[i] < ClassSizes(g)[j]
    ensures ClassIndex(g, size).Index?
    ensures ClassIndex(g, size).value < |ClassSizes(g)|
    ensures ClassSizes(g)[ClassIndex(g, size).value] == ClassSize(g, if size == 0 then 1 else size)
    ensures size <= ClassSizes(g)[ClassIndex(g, size).value] <= g.t3
  {
    var s := if size == 0 then 1 else size;
    ScannedUpTo(g, g.t3);
    ScannedUpTo(g, s);
    ScannedGrows(g, s, g.t3);
    ClassSizeBounds(g, s);
    assert ClassSizes(g)[IndexInRange(g, s)] == ClassSizes(g)[..|Scanned(g, s)|][IndexInRange(g, s)];
  }

  /** Every table entry is the class of its own size, so indexing a block by the class size in its
      header finds the class it was carved for. */
  lemma RoundingIsIdempotent(g: Config, i: nat)
    requires Wf(g) && i < |ClassSizes(g)|
    ensures 1 <= ClassSizes(g)[i] <= g.t3
    ensures ClassSize(g, ClassSizes(g)[i]) == ClassSizes(g)[i]
    ensures ClassIndex(g, ClassSizes(g)[i]) == Index(i)
  {
    var s := EntryWitness(g, i, g.t3);
    var c := ClassSize(g, s);
    ClassSizeBounds(g, s);
    if s <= g.t1 { AlignUpFixed(c, g.a1); }
    else if s <= g.t2 { AlignUpFixed(c, g.a2); }
    else { AlignUpFixed(c, g.a3); }
    ClosedFormAgreesWithTable(g, c);
    var j := ClassIndex(g, c).value;
    assert ClassSizes(g)[j] == ClassSizes(g)[i];
  }

  lemma {:induction false} EntryWitness(g: Config, i: nat, n: nat) returns (s: nat)
    requires i < |Scanned(g, n)|
    ensures 1 <= s <= n && ClassSize(g, s) == Scanned(g, n)[i]
  {
    if i < |Scanned(g, n - 1)| {
      s := EntryWitness(g, i, n - 1);
      ScannedGrows(g, n - 1, n);
    } else {
      s := n;
    }
  }

  /** SmallObjectAllocator::get_size_class finds a class exactly for the sizes in the table. */
  lemma SizeClassFoundIffInTable(g: Config, size: nat)
    requires Wf(g)
    ensures SizeClassFound(g, size) <==> size in ClassSizes(g)
  {
    if size in ClassSizes(g) {
      var i := EntryIndex(g, size);
      RoundingIsIdempotent(g, i);
    }
  }

  ghost predicate SizeClassFound(g: Config, size: nat)
    requires Wf(g)
  {
    match ClassIndex(g, size)
    case OutOfRange => false
    case Index(i) => i < |ClassSizes(g)| && ClassSizes(g)[i] == size
  }

  lemma EntryIndex(g: Config, size: nat) returns (i: nat)
    requires size in ClassSizes(g)
    ensures i < |ClassSizes(g)| && ClassSizes(g)[i] == size
  {
    i :| 0 <= i < |ClassSizes(g)| && ClassSizes(g)[i] == size;
  }

  /** The compiled-in constants satisfy the divisibility premise and give 40 classes. */
  lemma RepositoryTable()
    ensures Wf(REPOSITORY) && |ClassSizes(REPOSITORY)| == 40
    ensures ClassSizes(REPOSITORY)[39] == 4096
  {
    ScannedUpTo(REPOSITORY, 4096);
    AlignUpFixed(4096, 256);
  }

  // ---- cache and bin limits ----

  /** SizeClassConfig::max_cached_bytes_for_class, also the foreign high watermark. */
  function MaxCachedBytes(g: Config, classSize: nat): nat
  {
    if classSize <= g.t1 then g.t1 / 2 * 1024
    else if classSize <= g.t2 then g.t2 / 2 * 1024
    else g.t3 / 2 * 1024
  }

  function LowWatermark(g: Config, classSize: nat): nat
  {
    MaxCachedBytes(g, classSize) / 2
  }

  method MaxCachedBytesForClass(g: Config, classSize: nat) returns (bytes: nat)
    ensures bytes == MaxCachedBytes(g, classSize)
  {
    var thresholds := [g.t1, g.t2, g.t3];
    var i := 0;
    while i < 3
      invariant 0 <= i <= 3
      invariant (i >= 1 ==> classSize > g.t1) && (i >= 2 ==> classSize > g.t2)
    {
      if classSize <= thresholds[i] {
        return thresholds[i] / 2 * 1024;
      }
      i := i + 1;
    }
    return g.t3 / 2 * 1024;
  }

  /** A bin always has room for many blocks of its class, and draining to the low mark never empties it
      below a full block. */
  lemma WatermarksFitClass(g: Config, classSize: nat)
    requires Wf(g) && 1 <= classSize <= g.t3
    ensures classSize <= LowWatermark(g, classSize) < MaxCachedBytes(g, classSize)
    ensures LowWatermark(g, classSize) + classSize <= MaxCachedBytes(g, classSize)
  {
  }

  /** The caps compiled in: 128 KB up to 256 bytes, 512 KB up to 1 KB, 2 MB beyond; half of each is the low mark. */
  lemma RepositoryLimits(size: nat)
    ensures size <= 256 ==> MaxCachedBytes(REPOSITORY, size) == 131072 && LowWatermark(REPOSITORY, size) == 65536
    ensures 256 < size <= 1024 ==> MaxCachedBytes(REPOSITORY, size) == 524288 && LowWatermark(REPOSITORY, size) == 262144
    ensures 1024 < size ==> MaxCachedBytes(REPOSITORY, size) == 2097152 && LowWatermark(REPOSITORY, size) == 1048576
  {
  }

  // ---- which class a request gets ----

  /** The class of a request is the least entry of the table that holds it. */
  lemma LeastClass(g: Config, size: nat)
    requires Wf(g) && size <= g.t3
    ensures ClassIndex(g, size).Index? && ClassIndex(g, size).value < |ClassSizes(g)|
    ensures ClassSizes(g)[ClassIndex(g, size).value] >= size && ClassSizes(g)[ClassIndex(g, size).value] >= 1
    ensures forall j | 0 <= j < ClassIndex(g, size).value :: ClassSizes(g)[j] < size
  {
    ClosedFormAgreesWithTable(g, size);
    var i := ClassIndex(g, size).value;
    RoundingIsIdempotent(g, i);
    forall j | 0 <= j < i ensures ClassSizes(g)[j] < size {
      var s := EntryWitness(g, j, g.t3);
      SmallerRequest(g, s, size, j);
    }
  }

  /** Entry i is the least of the table that holds the request. */
  ghost predicate IsLeastEntry(sizes: seq<nat>, i: int, size: nat)
  {
    0 <= i < |sizes| && size <= sizes[i] && (i > 0 ==> sizes[i - 1] < size)
  }

  /** There is one such entry, at the index that the closed form gives; a request for nothing counts as one byte. */
  lemma OneLeastEntry(g: Config, size: nat)
    requires Wf(g) && size <= g.t3
    ensures ClassIndex(g, if size == 0 then 1 else size).Index?
    ensures forall i :: IsLeastEntry(ClassSizes(g), i, size) <==> i == ClassIndex(g, if size == 0 then 1 else size).value
  {
    var request := if size == 0 then 1 else size;
    LeastClass(g, request);
    ClosedFormAgreesWithTable(g, request);
    RoundingIsIdempotent(g, 0);
  }

  /** A request no larger than the size of entry j has an index of at most j. */
  lemma SmallerRequest(g: Config, s: nat, size: nat, j: nat)
    requires Wf(g) && 1 <= s <= g.t3 && size <= g.t3 && j < |ClassSizes(g)| && ClassSize(g, s) == ClassSizes(g)[j]
    requires j < ClassIndex(g, size).value
    ensures ClassSizes(g)[j] < size
  {
    RoundingIsIdempotent(g, j);
    IndexMonotone(g, if size == 0 then 1 else size, ClassSizes(g)[j]);
  }

  lemma {:induction false} IndexMonotone(g: Config, s: nat, t: nat)
    requires Wf(g) && 1 <= s <= g.t3 && 1 <= t <= g.t3
    ensures s <= t ==> IndexInRange(g, s) <= IndexInRange(g, t)
    decreases t
  {
    if s < t {
      IndexMonotone(g, s, t - 1);
      IndexStep(g, t - 1);
    }
  }

  /** The table compiled in: steps of 16 up to 256, of 64 up to 1024, of 256 up to 4096. */
  lemma RepositoryClassAt(i: nat)
    requires i < 40
    ensures Wf(REPOSITORY) && |ClassSizes(REPOSITORY)| == 40
    ensures ClassSizes(REPOSITORY)[i] == if i < 16 then 16 * (i + 1) else if i < 28 then 256 + 64 * (i - 15) else 1024 + 256 * (i - 27)
  {
    RepositoryTable();
    var s := if i < 16 then 16 * (i + 1) else if i < 28 then 256 + 64 * (i - 15) else 1024 + 256 * (i - 27);
    AlignUpFixed(s, if i < 16 then 16 else if i < 28 then 64 else 256);
    ClosedFormAgreesWithTable(REPOSITORY, s);
  }
}
