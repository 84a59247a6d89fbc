/** What detaching does to a foreign bin: everything, or the head prefix down to the low watermark. */
module ForeignSpec {
  import opened Arithmetic
  import opened Lists

  function Reverse(s: seq<Addr>): (r: seq<Addr>)
    ensures |r| == |s|
  {
    if s == [] then [] else Reverse(s[1..]) + [s[0]]
  }

  lemma {:induction false} ReverseAt(s: seq<Addr>, i: nat)
    requires i < |s|
    ensures Reverse(s)[i] == s[|s| - 1 - i]
  {
    if i < |s| - 1 { ReverseAt(s[1..], i); }
  }

  /** How many blocks the overflow loop detaches: it stops at the low watermark or the end of the list. */
  function DetachCount(count: nat, bytes: int, size: nat, low: nat): (n: nat)
    ensures n <= count
    decreases count
  {
    if count > 0 && bytes > low then 1 + DetachCount(count - 1, bytes - size, size, low) else 0
  }

  /** The detached prefix is the shortest that reaches the low watermark, so the bin is left within one
      block of it. */
  lemma {:induction false} DetachCountTight(count: nat, bytes: int, size: nat, low: nat)
    requires size > 0 && bytes == count * size
    ensures var n := DetachCount(count, bytes, size, low);
      && bytes - n * size <= low
      && (n > 0 ==> bytes - n * size > low - size)
      && (bytes > low <==> n > 0)
      && bytes - n * size == (count - n) * size
    decreases count
  {
    if count > 0 && bytes > low {
      assert (count - 1) * size == bytes - size;
      DetachCountTight(count - 1, bytes - size, size, low);
      var n := DetachCount(count, bytes, size, low);
      assert n * size == (n - 1) * size + size;
      assert (count - n) * size == (count - 1 - (n - 1)) * size;
    } else {
      assert count == 0 ==> bytes == 0;
    }
  }

  /** Taking a prefix off a duplicate-free list splits its elements. */
  lemma SplitList(list: seq<Addr>, n: nat)
    requires NoDup(list) && n <= |list|
    ensures NoDup(list[n..]) && NoDup(Reverse(list[..n])) && NoDup(list[..n])
    ensures Elems(Reverse(list[..n])) == Elems(list[..n])
    ensures Elems(list) == Elems(list[..n]) + Elems(list[n..])
    ensures Elems(list[..n]) !! Elems(list[n..])
  {
    var pre := list[..n];
    forall i | 0 <= i < n ensures Reverse(pre)[i] == pre[n - 1 - i] { ReverseAt(pre, i); }
    forall b ensures b in Reverse(pre) <==> b in pre {
      if b in pre {
        var i :| 0 <= i < n && pre[i] == b;
        assert Reverse(pre)[n - 1 - i] == b;
      }
    }
    assert list == pre + list[n..];
    assert forall i, j | 0 <= i < n <= j < |list| :: list[i] == pre[i] && list[j] == list[n..][j - n];
  }
}
