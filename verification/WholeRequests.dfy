/** What a request to the whole allocator comes to, in the size and alignment it was made with, and what each range
    that is handed out in a run answers. */
module WholeRequests {
  import opened Arithmetic
  import opened Lists
  import opened Layout
  import opened SizeClassSpec
  import opened Protocol
  import opened ProtocolInvariant
  import opened ProtocolSteps
  import opened ProtocolTransfers
  import opened ProtocolClasses
  import opened ProtocolTheorems
  import opened ProtocolMemory
  import opened ProtocolProgress
  import opened WholeSystem
  import S = LargeObjectSpec
  import L = LargeSpans
  import T = SizeClassTable

  /** Range r was not handed out before and is now; nothing else has changed hands. */
  ghost predicate Gains(w: World, w': World, r: Range)
  {
    r !in Held(w) && Held(w') == Held(w) + iset{r}
  }

  // ---- one request ----

  /** The small side of a whole step. */
  lemma SmallIs(c: Params, w: World, a: Action, w': World)
    requires WfParams(c) && SmallStep(c, w, a, w')
    ensures Enabled(c.g, w.sys, a) && w'.sys == Apply(c.g, w.sys, a) && w'.large == w.large
  {
  }

  /** Which side a request goes to. */
  lemma RequestGoes(c: Params, w: World, t: nat, size: nat, alignment: nat, os: Option<Addr>, w': World, i: int)
    requires WfParams(c) && w' in NextOf(c, w, Request(t, size, alignment, os))
    ensures size <= c.g.table.t3 && alignment <= 16 && T.IsLeastEntry(c.g.sizes, i, size) ==> SmallStep(c, w, Malloc(t, i), w')
    ensures size > c.g.table.t3 || alignment > 16 ==>
              CanCall(w, t) && LargeMalloc(c, w, w.sys.threads[t].cache.node, if size == 0 then 1 else size, alignment, os, w')
  {
    if size <= c.g.table.t3 { T.OneLeastEntry(c.g.table, size); }
  }

  /** What a call of malloc for class i does, in terms of the thread's cache. */
  lemma MallocIs(g: Config, s: Sys, t: nat, i: nat)
    requires s in Good(g) && WfConfig(g) && Enabled(g, s, Malloc(t, i))
    ensures var th, s' := s.threads[t], Apply(g, s, Malloc(t, i));
      && th.pc.Idle? && th.cache.Cache? && i < |th.cache.bins| && t < |s'.threads|
      && if th.cache.use && th.cache.bins[i].list != []
         then s'.threads[t].pc == Idle && s'.threads[t].cache.Cache? && i < |s'.threads[t].cache.bins|
              && s'.threads[t].cache.bins[i].list == th.cache.bins[i].list[1..]
              && EventOf(g, s, Malloc(t, i)) == HandOut(Range(Link(th.cache.bins[i].list[0]), g.sizes[i]))
         else s' == s.(threads := s.threads[t := th.(pc := Hint(Key(th.cache.node, i)))]) && EventOf(g, s, Malloc(t, i)) == Silent
  {
    ThreadFacts(g, s, t);
  }

  /** A request of up to the threshold, aligned to 16 at most, is served by the least class that holds it: from the
      thread's cache if that is on and has a block, the one cached last; if not, the thread sets out for that class on its
      own node, and nothing is handed out yet. The large side is not involved. */
  lemma SmallRequest(c: Params, w: World, t: nat, size: nat, alignment: nat, os: Option<Addr>, w': World, i: nat)
    requires WfParams(c) && w in Sound(c) && w' in NextOf(c, w, Request(t, size, alignment, os))
    requires size <= c.g.table.t3 && alignment <= 16 && T.IsLeastEntry(c.g.sizes, i, size)
    ensures w'.large == w.large && t < |w.sys.threads| && t < |w'.sys.threads|
    ensures var cache, now := w.sys.threads[t].cache, w'.sys.threads[t];
      && w.sys.threads[t].pc.Idle? && cache.Cache? && i < |cache.bins|
      && if cache.use && cache.bins[i].list != [] then
           var r := Range(Link(cache.bins[i].list[0]), c.g.sizes[i]);
           && now.pc.Idle? && now.cache.Cache? && i < |now.cache.bins| && now.cache.bins[i].list == cache.bins[i].list[1..]
           && Gains(w, w', r) && r.start % 16 == 0 && r.len >= size && r.len >= 1
         else now == Thread(Hint(Key(cache.node, i)), cache) && Held(w') == Held(w)
  {
    RequestGoes(c, w, t, size, alignment, os, w', i);
    SmallIs(c, w, Malloc(t, i), w');
    MallocIs(c.g, w.sys, t, i);
    WholeKeeps(c, w, Request(t, size, alignment, os), w');
    SmallRefines(c, w, Malloc(t, i), w');
  }

  /** The one new range is n bytes at a multiple of `align`. */
  ghost predicate Answers(w: World, w': World, r: Range, n: nat, align: nat)
  {
    Gains(w, w', r) && r.len == n && align > 0 && r.start % align == 0
  }

  /** A request beyond the threshold or the small alignment goes to the large allocator of the thread's node and leaves
      the small side alone. It is answered by one range of exactly the size, one byte for none, aligned to the
      alignment or to 8; it goes without only if size, alignment and header do not add up to a word, or the OS refuses. */
  lemma LargeRequest(c: Params, w: World, t: nat, size: nat, alignment: nat, os: Option<Addr>, w': World) returns (r: Range)
    requires WfParams(c) && w in Sound(c) && w' in NextOf(c, w, Request(t, size, alignment, os))
    requires size > c.g.table.t3 || alignment > 16
    ensures w'.sys == w.sys && t < |w.sys.threads| && w.sys.threads[t].pc.Idle? && w.sys.threads[t].cache.Cache?
    ensures var n, k := if size == 0 then 1 else size, w.sys.threads[t].cache.node;
      && k < |w.large| && |w.large[k].bins| == S.BINS && n < S.WORD && alignment < S.WORD
      && w'.large == w.large[k := L.AllocateStep(w.large[k], c.ps, n, alignment, os).p]
    ensures Held(w') == Held(w) || Answers(w, w', r, if size == 0 then 1 else size, if alignment < 8 then 8 else alignment)
    ensures Held(w') == Held(w) ==> os.None? || (if size == 0 then 1 else size) + (if alignment < 8 then 8 else alignment) + 32 >= 0x1_0000_0000_0000_0000
  {
    RequestGoes(c, w, t, size, alignment, os, w', 0);
    WholeKeeps(c, w, Request(t, size, alignment, os), w');
    var n, k := if size == 0 then 1 else size, w.sys.threads[t].cache.node;
    r := LargeAnswer(c, w, k, n, alignment, os, w');
  }

  lemma LargeAnswer(c: Params, w: World, k: nat, n: nat, alignment: nat, os: Option<Addr>, w': World) returns (r: Range)
    requires WfParams(c) && w in Sound(c) && w' in Sound(c) && LargeMalloc(c, w, k, n, alignment, os, w') && n > 0
    ensures Held(w') == Held(w) || Answers(w, w', r, n, if alignment < 8 then 8 else alignment)
    ensures Held(w') == Held(w) ==> os.None? || n + (if alignment < 8 then 8 else alignment) + 32 >= 0x1_0000_0000_0000_0000
  {
    LargeMallocRefines(c, w, k, n, alignment, os, w');
    assert NodeOk(c, w.large, k);
    L.RefusedExactly(w.large[k], c.ps, n, alignment, os);
    var outcome := L.AllocateStep(w.large[k], c.ps, n, alignment, os).outcome;
    r := Range(if outcome.Got? then outcome.u else NULL, n);
    if S.GuardPasses(n, S.EffectiveAlignment(alignment)) { L.UnwrappedIsServed(c.limits, w.large[k], c.ps, n, alignment, os); }
  }

  /** A multiple of 16, or of the alignment raised to 8, is a multiple of every power of two that asks for no more. */
  lemma AlignedAsAsked(start: nat, alignment: nat)
    requires IsPow2(alignment)
    ensures start % 16 == 0 && alignment <= 16 ==> start % alignment == 0
    ensures start % (if alignment < 8 then 8 else alignment) == 0 ==> start % alignment == 0
  {
    assert IsPow2(2) && IsPow2(4) && IsPow2(8) && IsPow2(16);
    if alignment <= 16 {
      Pow2Divides(alignment, 16);
      if start % 16 == 0 { MultipleOfMultiple(start, alignment, 16); }
    }
    if alignment < 8 {
      Pow2Divides(alignment, 8);
      if start % 8 == 0 { MultipleOfMultiple(start, alignment, 8); }
    }
  }

  /** Whatever a request is answered with at once is one range, long enough, not empty, aligned as asked, and apart from
      everything handed out before, which stays handed out. */
  lemma AnswerFits(c: Params, w: World, t: nat, size: nat, alignment: nat, os: Option<Addr>, w': World, r: Range)
    requires WfParams(c) && w in Sound(c) && w' in NextOf(c, w, Request(t, size, alignment, os))
    requires r in Held(w') && r !in Held(w)
    ensures r.len >= size && r.len >= 1
    ensures IsPow2(alignment) ==> r.start % alignment == 0
    ensures Held(w') == Held(w) + iset{r} && forall q | q in Held(w) :: Disjoint(r, q)
  {
    if IsPow2(alignment) { AlignedAsAsked(r.start, alignment); }
    WholeStepRefines(c, w, Request(t, size, alignment, os), w');
    if size <= c.g.table.t3 && alignment <= 16 {
      T.OneLeastEntry(c.g.table, size);
      SmallRequest(c, w, t, size, alignment, os, w', T.ClassIndex(c.g.table, if size == 0 then 1 else size).value);
    } else {
      var _ := LargeRequest(c, w, t, size, alignment, os, w');
    }
  }

  /** Users hold one range at most from any address. */
  lemma OneFrom(c: Params, w: World, r: Range, q: Range)
    requires WfParams(c) && w in Sound(c) && r in Held(w) && q in Held(w) && r.start == q.start
    ensures r == q
  {
    if r in View(w.sys) && q in View(w.sys) {
    } else if r in View(w.sys) {
      NotBoth(c, w, r, q);
    } else if q in View(w.sys) {
      NotBoth(c, w, q, r);
    } else {
      var k: nat :| HasAt(w.large, k, r);
      var j: nat :| HasAt(w.large, j, q);
      OneHolder(c, w.large, k, r.start);
    }
  }

  lemma NotBoth(c: Params, w: World, r: Range, q: Range)
    requires WfParams(c) && w in Sound(c) && r in View(w.sys) && LargeHas(w.large, q)
    ensures r.start != q.start
  {
    var b: Addr :| b in w.sys.live && r == RangeOf(w.sys, b);
    var k: nat :| HasAt(w.large, k, q);
    SmallFreeGoesHome(c, w, b);
    LargeFreeGoesHome(c, w, k, q.start);
  }

  lemma TookFrom(c: Params, w: World, t: nat, u: Addr, w': World)
    requires WfParams(c) && w' in NextOf(c, w, WholeEvent.Release(t, u))
    ensures VisibleOf(c, w, WholeEvent.Release(t, u)).Took? && VisibleOf(c, w, WholeEvent.Release(t, u)).range.start == u
  {
  }

  /** A free takes back the range that starts at the pointer, whichever side it came from, and no other. */
  lemma ReleaseTakesBack(c: Params, w: World, t: nat, u: Addr, w': World)
    requires WfParams(c) && w in Sound(c) && w' in NextOf(c, w, WholeEvent.Release(t, u))
    ensures exists r :: r in Held(w) && r.start == u
    ensures forall r | r in Held(w) && r.start == u :: Held(w') == Held(w) - iset{r}
  {
    WholeStepRefines(c, w, WholeEvent.Release(t, u), w');
    TookFrom(c, w, t, u, w');
    var x := VisibleOf(c, w, WholeEvent.Release(t, u)).range;
    forall r | r in Held(w) && r.start == u ensures r == x { OneFrom(c, w, r, x); }
  }

  // ---- the request behind a range ----

  /** Not on the way to a block: idle, in a flush, or in a free that no allocation waits for. */
  predicate NotAllocating(pc: Pc)
  {
    match pc
    case Idle => true
    case Faulted => true
    case Flush(_) => true
    case Hint(_) => false
    case Stamp(_, _) => false
    case WantSc(_, op) => PlainFree(op)
    case InSc(_, op) => PlainFree(op)
    case WantBin(_, op) => op.Enqueue? && !op.cont.Retry?
    case InBin(_, op) => op.Enqueue? && !op.cont.Retry?
    case Pushed(_, cont) => !cont.Retry?
    case Added(_, cont) => !cont.Retry?
    case Subtract(_, _, _, cont) => !cont.Retry?
  }

  predicate PlainFree(op: ScOp)
  {
    (op.FreeOne? || op.FreeMany?) && !op.cont.Retry?
  }

  /** Only malloc sets out for a block. */
  lemma StaysAway(g: Config, s: Sys, a: Action)
    requires s in Good(g) && WfConfig(g) && Enabled(g, s, a) && !a.Malloc? && NotAllocating(s.threads[a.t].pc)
    ensures a.t < |Apply(g, s, a).threads| && NotAllocating(Apply(g, s, a).threads[a.t].pc)
  {
    OtherThreadsStay(g, s, a);
    match a
    case RunSc(t, os) => FreeUnderLock(g, s, t, os);
    case RunBin(t) => RunBinAway(g, s, t);
    case Settle(t) => SettleAway(g, s, t);
    case FetchSub(t) => FetchSubAway(g, s, t);
    case FlushNext(t) => FlushAway(g, s, t);
    case Free(t, b) => FreeAway(g, s, t, b);
    case _ =>
  }

  lemma FreeUnderLock(g: Config, s: Sys, t: nat, os: Option<Addr>)
    requires WfConfig(g) && Enabled(g, s, RunSc(t, os)) && NotAllocating(s.threads[t].pc)
    ensures t < |Apply(g, s, RunSc(t, os)).threads| && NotAllocating(Apply(g, s, RunSc(t, os)).threads[t].pc)
  {
    match s.threads[t].pc.op
    case FreeOne(b, cont) => var _ := GiveThread(g, s, t, [b], true, cont);
    case FreeMany(batch, cont) => var _ := GiveThread(g, s, t, batch, false, cont);
  }

  lemma RunBinAway(g: Config, s: Sys, t: nat)
    requires WfConfig(g) && Enabled(g, s, RunBin(t)) && NotAllocating(s.threads[t].pc)
    ensures t < |Apply(g, s, RunBin(t)).threads| && NotAllocating(Apply(g, s, RunBin(t)).threads[t].pc)
  {
  }

  lemma SettleAway(g: Config, s: Sys, t: nat)
    requires WfConfig(g) && Enabled(g, s, Settle(t)) && NotAllocating(s.threads[t].pc)
    ensures t < |Apply(g, s, Settle(t)).threads| && NotAllocating(Apply(g, s, Settle(t)).threads[t].pc)
  {
  }

  lemma FetchSubAway(g: Config, s: Sys, t: nat)
    requires WfConfig(g) && Enabled(g, s, FetchSub(t)) && NotAllocating(s.threads[t].pc)
    ensures t < |Apply(g, s, FetchSub(t)).threads| && NotAllocating(Apply(g, s, FetchSub(t)).threads[t].pc)
  {
  }

  lemma FlushAway(g: Config, s: Sys, t: nat)
    requires WfConfig(g) && Enabled(g, s, FlushNext(t)) && NotAllocating(s.threads[t].pc)
    ensures t < |Apply(g, s, FlushNext(t)).threads| && NotAllocating(Apply(g, s, FlushNext(t)).threads[t].pc)
  {
  }

  lemma FreeAway(g: Config, s: Sys, t: nat, b: Addr)
    requires WfConfig(g) && Enabled(g, s, Free(t, b)) && NotAllocating(s.threads[t].pc)
    ensures t < |Apply(g, s, Free(t, b)).threads| && NotAllocating(Apply(g, s, Free(t, b)).threads[t].pc)
  {
  }

  ghost predicate IsRequestOf(e: WholeEvent, t: nat)
  {
    e.Request? && e.t == t
  }

  /** Whether a thread goes from pc to pc' without a request of its own: it stays off allocation, or goes on with one. */
  ghost predicate GoesOn(pc: Pc, pc': Pc)
  {
    && (NotAllocating(pc) ==> NotAllocating(pc'))
    && forall k {:trigger Allocating(pc, k)} | Allocating(pc, k) :: Allocating(pc', k) || NotAllocating(pc')
  }

  lemma SmallGoesOn(g: Config, s: Sys, a: Action, t: nat)
    requires s in Good(g) && WfConfig(g) && Enabled(g, s, a) && (a.Malloc? ==> a.t != t) && t < |s.threads|
    ensures t < |Apply(g, s, a).threads| && GoesOn(s.threads[t].pc, Apply(g, s, a).threads[t].pc)
  {
    OtherThreadsStay(g, s, a);
    if a.t == t {
      if NotAllocating(s.threads[t].pc) { StaysAway(g, s, a); }
      forall k | Allocating(s.threads[t].pc, k)
        ensures Allocating(Apply(g, s, a).threads[t].pc, k) || NotAllocating(Apply(g, s, a).threads[t].pc)
      {
        AllocationGoesOnFromGood(g, s, a, k);
      }
    }
  }

  /** What a step does on the small side: nothing, or one action of the step system, a malloc only for a request. */
  lemma SmallPart(c: Params, w: World, e: WholeEvent, w': World) returns (a: Action)
    requires WfParams(c) && w' in NextOf(c, w, e)
    ensures w'.sys == w.sys || (Enabled(c.g, w.sys, a) && w'.sys == Apply(c.g, w.sys, a) && (a.Malloc? ==> IsRequestOf(e, a.t)))
  {
    match e
    case Inner(b) => a := b;
    case Request(t, size, alignment, os) =>
      a := Malloc(t, 0);
      if size <= c.g.table.t3 && alignment <= 16 {
        T.OneLeastEntry(c.g.table, size);
        a := Malloc(t, T.ClassIndex(c.g.table, if size == 0 then 1 else size).value);
      }
      RequestGoes(c, w, t, size, alignment, os, w', a.c);
    case Release(t, u) => a := Free(t, if u >= HEADER then u - HEADER else NULL);
    case _ => a := Exit(0);
  }

  /** The request e of thread t in world w set out for class k: the least that holds it, on the thread's node. */
  ghost predicate SetOutFor(c: Params, w: World, e: WholeEvent, k: Key)
    requires e.Request?
  {
    && e.size <= c.g.table.t3 && e.alignment <= 16 && T.IsLeastEntry(c.g.sizes, k.cls, e.size)
    && e.t < |w.sys.threads| && w.sys.threads[e.t].cache.Cache? && k.node == w.sys.threads[e.t].cache.node
  }

  /** The last request of a thread that is on the way to a block, and the class it is on the way to. */
  datatype Origin = Origin(i: nat, k: Key)

  ghost function Origins(c: Params, ws: seq<World>, es: seq<WholeEvent>, n: nat, t: nat): iset<Origin>
    requires n <= |es| && |ws| == |es| + 1
  {
    iset o: Origin | IsOrigin(c, ws, es, n, t, o)
  }

  ghost predicate IsOrigin(c: Params, ws: seq<World>, es: seq<WholeEvent>, n: nat, t: nat, o: Origin)
    requires n <= |es| && |ws| == |es| + 1
  {
    && o.i < n && IsRequestOf(es[o.i], t) && (forall m | o.i < m < n :: !IsRequestOf(es[m], t))
    && t < |ws[n].sys.threads| && Allocating(ws[n].sys.threads[t].pc, o.k) && SetOutFor(c, ws[o.i], es[o.i], o.k)
  }

  lemma StartsIdle(c: Params, ws: seq<World>, es: seq<WholeEvent>)
    requires WfParams(c) && IsWholeRun(c, ws, es)
    ensures |es| + 1 == |ws| && forall t | 0 <= t < |ws[0].sys.threads| :: NotAllocating(ws[0].sys.threads[t].pc)
  {
  }

  lemma StepAt(c: Params, ws: seq<World>, es: seq<WholeEvent>, n: nat)
    requires WfParams(c) && IsWholeRun(c, ws, es) && n < |es|
    ensures ws[n] in Sound(c) && ws[n + 1] in NextOf(c, ws[n], es[n])
  {
    WholeRunSound(c, ws, es, n);
    assert LeadsOn(c, ws, es, n);
  }

  /** Any thread on the way to a block is there for its last request, and on the way to that request's class. */
  lemma {:induction false} OnTheWayFor(c: Params, ws: seq<World>, es: seq<WholeEvent>, n: nat, t: nat) returns (o: Origin)
    requires WfParams(c) && IsWholeRun(c, ws, es) && n <= |es| && t < |ws[n].sys.threads| && !NotAllocating(ws[n].sys.threads[t].pc)
    ensures o in Origins(c, ws, es, n, t)
  {
    StartsIdle(c, ws, es);
    StepAt(c, ws, es, n - 1);
    if IsRequestOf(es[n - 1], t) {
      o := JustSetOut(c, ws, es, n, t);
    } else {
      GoesOnSince(c, ws[n - 1], es[n - 1], ws[n], t);
      o := OnTheWayFor(c, ws, es, n - 1, t);
      StillFor(c, ws, es, n, t, o);
    }
  }

  lemma JustSetOut(c: Params, ws: seq<World>, es: seq<WholeEvent>, n: nat, t: nat) returns (o: Origin)
    requires WfParams(c) && 0 < n <= |es| && |ws| == |es| + 1 && ws[n - 1] in Sound(c) && ws[n] in NextOf(c, ws[n - 1], es[n - 1])
    requires IsRequestOf(es[n - 1], t) && t < |ws[n].sys.threads| && !NotAllocating(ws[n].sys.threads[t].pc)
    ensures o in Origins(c, ws, es, n, t)
  {
    var k := SetsOut(c, ws[n - 1], es[n - 1], ws[n]);
    o := Origin(n - 1, k);
  }

  lemma StillFor(c: Params, ws: seq<World>, es: seq<WholeEvent>, n: nat, t: nat, o: Origin)
    requires 0 < n <= |es| && |ws| == |es| + 1 && o in Origins(c, ws, es, n - 1, t) && !IsRequestOf(es[n - 1], t)
    requires t < |ws[n - 1].sys.threads| && t < |ws[n].sys.threads|
    requires GoesOn(ws[n - 1].sys.threads[t].pc, ws[n].sys.threads[t].pc) && !NotAllocating(ws[n].sys.threads[t].pc)
    ensures o in Origins(c, ws, es, n, t)
  {
  }

  lemma GoesOnSince(c: Params, w: World, e: WholeEvent, w': World, t: nat)
    requires WfParams(c) && w in Sound(c) && w' in NextOf(c, w, e) && !IsRequestOf(e, t) && t < |w'.sys.threads|
    ensures t < |w.sys.threads| && GoesOn(w.sys.threads[t].pc, w'.sys.threads[t].pc)
  {
    var a := SmallPart(c, w, e, w');
    if w'.sys != w.sys {
      OtherThreadsStay(c.g, w.sys, a);
      SmallGoesOn(c.g, w.sys, a, t);
    }
  }

  lemma SetsOut(c: Params, w: World, e: WholeEvent, w': World) returns (k: Key)
    requires WfParams(c) && w in Sound(c) && w' in NextOf(c, w, e) && e.Request?
    ensures e.t < |w'.sys.threads| && (NotAllocating(w'.sys.threads[e.t].pc) || (w'.sys.threads[e.t].pc == Hint(k) && SetOutFor(c, w, e, k)))
  {
    if e.size <= c.g.table.t3 && e.alignment <= 16 {
      T.OneLeastEntry(c.g.table, e.size);
      var i := T.ClassIndex(c.g.table, if e.size == 0 then 1 else e.size).value;
      SmallRequest(c, w, e.t, e.size, e.alignment, e.os, w', i);
      k := Key(w.sys.threads[e.t].cache.node, i);
    } else {
      var _ := LargeRequest(c, w, e.t, e.size, e.alignment, e.os, w');
      k := Key(0, 0);
    }
  }

  /** What a stamp hands out. */
  lemma StampGives(c: Params, w: World, t: nat, w': World)
    requires WfParams(c) && w in Sound(c) && w' in NextOf(c, w, Inner(StampBlock(t)))
    ensures t < |w.sys.threads| && w.sys.threads[t].pc.Stamp?
    ensures var r := Range(Link(w.sys.threads[t].pc.block), SizeOf(c.g, w.sys.threads[t].pc.key));
      Gains(w, w', r) && r.start % 16 == 0 && r.len >= 1
  {
    WholeKeeps(c, w, Inner(StampBlock(t)), w');
    SmallRefines(c, w, StampBlock(t), w');
  }

  /** A miss is answered in its own class: when the thread stamps a block and has made no request since, it hands out one
      range, of the size of the least class that holds the request, aligned as asked. */
  lemma MissIsAnswered(c: Params, ws: seq<World>, es: seq<WholeEvent>, i: nat, j: nat, t: nat, cls: nat, r: Range)
    requires WfParams(c) && IsWholeRun(c, ws, es) && i < j < |es| && IsRequestOf(es[i], t) && es[j] == Inner(StampBlock(t))
    requires forall m | i < m < j :: !IsRequestOf(es[m], t)
    requires r in Held(ws[j + 1]) && r !in Held(ws[j]) && T.IsLeastEntry(c.g.sizes, cls, es[i].size)
    ensures r.len == c.g.sizes[cls] && r.len >= es[i].size && r.len >= 1 && es[i].size <= c.g.table.t3 && es[i].alignment <= 16
    ensures IsPow2(es[i].alignment) ==> r.start % es[i].alignment == 0
    ensures Held(ws[j + 1]) == Held(ws[j]) + iset{r}
  {
    StepAt(c, ws, es, j);
    StampGives(c, ws[j], t, ws[j + 1]);
    var o := OnTheWayFor(c, ws, es, j, t);
    assert o.i == i;
    T.OneLeastEntry(c.g.table, es[i].size);
    if IsPow2(es[i].alignment) { AlignedAsAsked(r.start, es[i].alignment); }
  }

  /** Every range handed out in a run answers a request: it comes with the request itself, or with the stamp of the
      thread that made it and has made no other since; and it is as long and as aligned as that request asked. */
  lemma EveryRangeAnswersItsRequest(c: Params, ws: seq<World>, es: seq<WholeEvent>, j: nat, r: Range) returns (i: nat)
    requires WfParams(c) && IsWholeRun(c, ws, es) && j < |es| && r in Held(ws[j + 1]) && r !in Held(ws[j])
    ensures i <= j && es[i].Request? && (i < j ==> es[j] == Inner(StampBlock(es[i].t)))
    ensures forall m | i < m < j :: !IsRequestOf(es[m], es[i].t)
    ensures r.len >= es[i].size && r.len >= 1
    ensures IsPow2(es[i].alignment) ==> r.start % es[i].alignment == 0
    ensures Held(ws[j + 1]) == Held(ws[j]) + iset{r} && forall q | q in Held(ws[j]) :: Disjoint(r, q)
  {
    StepAt(c, ws, es, j);
    WholeStepRefines(c, ws[j], es[j], ws[j + 1]);
    i := j;
    if es[j].Request? {
      AnswerFits(c, ws[j], es[j].t, es[j].size, es[j].alignment, es[j].os, ws[j + 1], r);
    } else {
      assert es[j].Inner? && es[j].action.StampBlock?;
      var t := es[j].action.t;
      StampGives(c, ws[j], t, ws[j + 1]);
      var o := OnTheWayFor(c, ws, es, j, t);
      i := o.i;
      MissIsAnswered(c, ws, es, i, j, t, o.k.cls, r);
    }
  }
}
