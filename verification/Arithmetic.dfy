/** Rounding, powers of two and finite sums used by every layout and counter proof. */
module Arithmetic {

  /** VirtualMemory::align_up on unbounded naturals: the least multiple of `align` that is at least `x`. */
  function AlignUp(x: nat, align: nat): (r: nat)
    ensures x <= r
    ensures align > 0 ==> r < x + align && r % align == 0
  {
    if align == 0 then x
    else
      DivMod(x + align - 1, align);
      MultipleMod((x + align - 1) / align, align);
      ((x + align - 1) / align) * align
  }

  lemma DivMod(x: int, d: int)
    requires d > 0
    ensures x == (x / d) * d + x % d && 0 <= x % d < d
  {
  }

  lemma {:induction false} MultipleMod(q: nat, d: nat)
    requires d > 0
    ensures (q * d) % d == 0 && (q * d) / d == q
  {
    DivUnique(q * d, d, q, 0);
  }

  lemma DivUnique(x: int, d: int, q: int, r: int)
    requires d > 0 && 0 <= r < d && x == q * d + r
    ensures x / d == q && x % d == r
  {
    DivMod(x, d);
    var k := x / d - q;
    assert k * d == r - x % d by { assert k * d == (x / d) * d - q * d; }
    if k >= 1 { MulMono(1, k, d); }
    if k <= -1 { MulMono(k, -1, d); }
  }

  lemma MulMono(a: int, b: int, d: int)
    requires a <= b && 0 <= d
    ensures a * d <= b * d
  {
  }

  /** Two multiples of d closer than d apart are equal. */
  lemma MultiplesApart(x: int, y: int, d: int)
    requires d > 0 && x % d == 0 && y % d == 0 && x < y
    ensures x + d <= y
  {
    DivMod(x, d);
    DivMod(y, d);
    var k := y / d - x / d;
    assert k * d == y - x;
    if k <= 0 { MulMono(k, 0, d); }
    MulMono(1, k, d);
  }

  lemma SumOfMultiples(x: int, y: int, d: int)
    requires d > 0 && x % d == 0 && y % d == 0
    ensures (x + y) % d == 0 && (x - y) % d == 0
    ensures (x + y) / d == x / d + y / d && (x - y) / d == x / d - y / d
  {
    DivMod(x, d);
    DivMod(y, d);
    DivUnique(x + y, d, x / d + y / d, 0);
    DivUnique(x - y, d, x / d - y / d, 0);
  }

  lemma AlignUpLeast(x: nat, align: nat, m: nat)
    requires align > 0 && x <= m && m % align == 0
    ensures AlignUp(x, align) <= m
  {
    if m < AlignUp(x, align) { MultiplesApart(m, AlignUp(x, align), align); }
  }

  lemma AlignUpFixed(x: nat, align: nat)
    requires align > 0
    ensures AlignUp(x, align) == x <==> x % align == 0
  {
    if x % align == 0 { AlignUpLeast(x, align, x); }
  }

  /** How rounding moves when the argument grows by one. */
  lemma AlignUpStep(x: nat, align: nat)
    requires align > 0
    ensures AlignUp(x + 1, align) == if x % align == 0 then x + align else AlignUp(x, align)
  {
    AlignUpFixed(x, align);
    if x % align == 0 {
      SumOfMultiples(x, align, align);
      AlignUpLeast(x + 1, align, x + align);
      MultiplesApart(x, AlignUp(x + 1, align), align);
    } else {
      AlignUpLeast(x + 1, align, AlignUp(x, align));
      AlignUpLeast(x, align, AlignUp(x + 1, align));
    }
  }

  // ---- powers of two ----

  predicate IsPow2(n: nat)
  {
    n == 1 || (n > 1 && n % 2 == 0 && IsPow2(n / 2))
  }

  /** The smaller of two powers of two divides the larger. */
  lemma {:induction false} Pow2Divides(p: nat, q: nat)
    requires IsPow2(p) && IsPow2(q) && p <= q
    ensures q % p == 0
  {
    if p > 1 {
      Pow2Divides(p / 2, q / 2);
      var m := (q / 2) / (p / 2);
      DivMod(q / 2, p / 2);
      assert q == m * p by { assert q == 2 * (m * (p / 2)) == m * (2 * (p / 2)); }
      MultipleMod(m, p);
    }
  }

  lemma MultipleOfMultiple(x: nat, a: nat, b: nat)
    requires a > 0 && b > 0 && x % b == 0 && b % a == 0
    ensures x % a == 0
  {
    DivMod(x, b);
    DivMod(b, a);
    var m := (x / b) * (b / a);
    assert x == m * a by { assert x == (x / b) * ((b / a) * a) == m * a; }
    MultipleMod(m, a);
  }

  // ---- finite sums ----

  function Sum(a: seq<int>): int
  {
    if a == [] then 0 else a[0] + Sum(a[1..])
  }

  lemma {:induction false} SumUpdate(a: seq<int>, b: seq<int>, i: nat)
    requires |a| == |b| && i < |a|
    requires forall j | 0 <= j < |a| && j != i :: a[j] == b[j]
    ensures Sum(b) == Sum(a) + b[i] - a[i]
  {
    if i > 0 {
      SumUpdate(a[1..], b[1..], i - 1);
    } else {
      assert a[1..] == b[1..];
    }
  }

  lemma {:induction false} SumBounds(a: seq<int>, i: nat)
    requires i < |a| && forall j | 0 <= j < |a| :: a[j] >= 0
    ensures 0 <= a[i] <= Sum(a)
  {
    if i > 0 {
      SumBounds(a[1..], i - 1);
    } else {
      SumNonNegative(a[1..]);
    }
  }

  lemma {:induction false} SumNonNegative(a: seq<int>)
    requires forall j | 0 <= j < |a| :: a[j] >= 0
    ensures Sum(a) >= 0
  {
    if a != [] { SumNonNegative(a[1..]); }
  }

  lemma {:induction false} SumZero(a: seq<int>)
    requires forall j | 0 <= j < |a| :: a[j] == 0
    ensures Sum(a) == 0
  {
    if a != [] { SumZero(a[1..]); }
  }
}
