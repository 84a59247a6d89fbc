/** Addresses, null-terminated chains through payload words, and duplicate-free sequences. */
module Lists {

  /** An address; 0 is the null pointer. */
  type Addr = nat
  const NULL: Addr := 0

  ghost predicate NoDup<T>(s: seq<T>)
  {
    forall i, j | 0 <= i < j < |s| :: s[i] != s[j]
  }

  lemma NoDupPush<T>(x: T, s: seq<T>)
    requires NoDup(s) && x !in s
    ensures NoDup([x] + s)
  {
  }

  function Elems<T>(s: seq<T>): set<T>
  {
    set x | x in s
  }

  lemma {:induction false} NoDupCard<T>(s: seq<T>)
    requires NoDup(s)
    ensures |Elems(s)| == |s|
  {
    if s != [] {
      NoDupCard(s[1..]);
      assert Elems(s) == Elems(s[1..]) + {s[0]};
      assert s[0] !in Elems(s[1..]);
    } else {
      assert Elems(s) == {};
    }
  }

  lemma NoDupTail<T>(s: seq<T>)
    requires NoDup(s) && s != []
    ensures NoDup(s[1..]) && Elems(s[1..]) == Elems(s) - {s[0]}
  {
    assert s == [s[0]] + s[1..];
    assert s[0] !in s[1..];
  }

  lemma SubsetCard<T>(a: set<T>, b: set<T>)
    requires a <= b
    ensures |a| <= |b|
    ensures |a| == |b| ==> a == b
  {
    assert b == a + (b - a);
    assert |b| == |a| + |b - a|;
    if |a| == |b| { assert b - a == {}; }
  }

  // ---- words and chains ----

  /** A word that was never written reads as zero: fresh anonymous mappings are zero-filled. */
  function Load(words: map<Addr, Addr>, a: Addr): Addr
  {
    if a in words then words[a] else 0
  }

  /** BlockHeader is 32 bytes; its user pointer is the word that every free list, cache bin, foreign bin
      and batch uses as its link. */
  const HEADER: nat := 32

  function Link(block: Addr): Addr
  {
    block + HEADER
  }

  function Head(list: seq<Addr>): Addr
  {
    if list == [] then NULL else list[0]
  }

  /** Following links from `head` visits exactly `list` and then null. */
  ghost predicate Chain(words: map<Addr, Addr>, head: Addr, list: seq<Addr>)
    decreases list
  {
    && head == Head(list)
    && (list != [] ==> list[0] != NULL && Chain(words, Load(words, Link(list[0])), list[1..]))
  }

  lemma {:induction false} ChainFrame(w: map<Addr, Addr>, w': map<Addr, Addr>, head: Addr, list: seq<Addr>)
    requires Chain(w, head, list)
    requires forall b | b in list :: Load(w', Link(b)) == Load(w, Link(b))
    ensures Chain(w', head, list)
    decreases list
  {
    if list != [] {
      assert forall b | b in list[1..] :: b in list;
      ChainFrame(w, w', Load(w, Link(list[0])), list[1..]);
    }
  }

  /** Linking a block in front of a chain it is not on. */
  lemma ChainPush(w: map<Addr, Addr>, b: Addr, head: Addr, list: seq<Addr>)
    requires Chain(w, head, list) && b != NULL && b !in list
    ensures Chain(w[Link(b) := head], b, [b] + list)
  {
    ChainFrame(w, w[Link(b) := head], head, list);
    assert ([b] + list)[1..] == list;
  }

  /** A chain is determined by its head: the links cannot describe two different lists. */
  lemma {:induction false} ChainUnique(w: map<Addr, Addr>, head: Addr, l1: seq<Addr>, l2: seq<Addr>)
    requires Chain(w, head, l1) && Chain(w, head, l2)
    ensures l1 == l2
    decreases l1
  {
    if l1 != [] && l2 != [] {
      ChainUnique(w, Load(w, Link(head)), l1[1..], l2[1..]);
      assert l1 == [l1[0]] + l1[1..] && l2 == [l2[0]] + l2[1..];
    }
  }

  /** A chain that ends in null visits no block twice. */
  lemma ChainNoDup(w: map<Addr, Addr>, head: Addr, list: seq<Addr>)
    requires Chain(w, head, list)
    ensures NoDup(list)
  {
    forall i, j | 0 <= i < j < |list| ensures list[i] != list[j] {
      ChainSuffix(w, head, list, i);
      ChainSuffix(w, head, list, j);
      if list[i] == list[j] { ChainUnique(w, list[i], list[i..], list[j..]); }
    }
  }

  lemma {:induction false} ChainSuffix(w: map<Addr, Addr>, head: Addr, list: seq<Addr>, i: nat)
    requires Chain(w, head, list) && i <= |list|
    ensures Chain(w, Head(list[i..]), list[i..])
    decreases i
  {
    if i == 0 {
      assert list[0..] == list;
    } else {
      ChainSuffix(w, Load(w, Link(list[0])), list[1..], i - 1);
      assert list[1..][i - 1..] == list[i..];
    }
  }

  // ---- what a step writes ----

  ghost function Set(list: seq<Addr>): iset<Addr>
  {
    iset b | b in list
  }

  /** Only the link words of `blocks` differ. */
  ghost predicate OnlyAt(w: map<Addr, Addr>, w': map<Addr, Addr>, blocks: iset<Addr>)
  {
    forall b: Addr {:trigger Load(w', Link(b))} | b !in blocks :: Load(w', Link(b)) == Load(w, Link(b))
  }

  lemma OnlyAtWrite(w: map<Addr, Addr>, w': map<Addr, Addr>, blocks: iset<Addr>, b: Addr, v: Addr)
    requires OnlyAt(w, w', blocks) && b in blocks
    ensures OnlyAt(w, w'[Link(b) := v], blocks)
  {
    forall c: Addr | c !in blocks ensures Load(w'[Link(b) := v], Link(c)) == Load(w, Link(c)) {
      assert Load(w', Link(c)) == Load(w, Link(c));
    }
  }

  lemma OnlyAtMore(w: map<Addr, Addr>, w': map<Addr, Addr>, blocks: iset<Addr>, more: iset<Addr>)
    requires OnlyAt(w, w', blocks) && forall b | b in blocks :: b in more
    ensures OnlyAt(w, w', more)
  {
    forall c: Addr | c !in more ensures Load(w', Link(c)) == Load(w, Link(c)) { assert c !in blocks; }
  }

  lemma OnlyAtTwice(w0: map<Addr, Addr>, w1: map<Addr, Addr>, w2: map<Addr, Addr>, blocks: iset<Addr>)
    requires OnlyAt(w0, w1, blocks) && OnlyAt(w1, w2, blocks)
    ensures OnlyAt(w0, w2, blocks)
  {
    forall c: Addr | c !in blocks ensures Load(w2, Link(c)) == Load(w0, Link(c)) {
      assert Load(w1, Link(c)) == Load(w0, Link(c));
    }
  }

  // ---- payloads ----

  /** The n payload bytes of block b read the same in both memories. */
  predicate PayloadKept(w: map<Addr, Addr>, w': map<Addr, Addr>, b: Addr, n: nat)
  {
    forall a {:trigger Load(w', a)} | Link(b) <= a < Link(b) + n :: Load(w', a) == Load(w, a)
  }
}
