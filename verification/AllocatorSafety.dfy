/** What holds in every reachable state of the allocator, stated on the state alone. */
module AllocatorSafety {
  import opened Basics
  import opened SizeClass
  import opened PageHeap
  import opened PageHeapInvariant
  import opened Allocator
  import opened AllocatorInvariant
  import opened AllocatorThreadSteps
  import opened AllocatorReturnSteps
  import opened AllocatorRuns
  import opened Carving

  /**
   No thread reads through a wrong tag, unlinks what is not linked, or fails an assertion. The assertion
   at the batch cut is read repaired, n <= length, whatever the variant: see `BatchCutInBounds`. Chains
   are lists here: with carving as written, users are taken to leave alone what of their block lies past
   the end of its span, where links of other objects may be (`AllocatorLinks.UserMissesLinkExactly`).
   */
  lemma NeverCrashes(v: Variant, s: State, t: Tid)
    requires Reachable(v, s) && t in s.pc
    ensures !s.pc[t].Crashed?
  {
    var k, w := ReachableInv(v, s);
    assert PcOk(k, s, w.own, t, s.pc[t]);
  }

  predicate OnList(s: State, id: SpanId, c: nat) {
    c < NFREELIST && id in s.lists[c]
  }

  predicate CarriedBy(s: State, id: SpanId, t: Tid) {
    t in s.pc && Carries(s.pc[t]) == Some(id)
  }

  /** A live span is in a page bucket, on one central list, or carried by one thread, and only there. */
  lemma SpanInOnePlace(v: Variant, s: State, id: SpanId)
    requires Reachable(v, s) && id in s.heap.spans
    ensures InBucket(s.heap, id) || (exists c :: OnList(s, id, c)) || (exists t :: CarriedBy(s, id, t))
    ensures forall c :: OnList(s, id, c) ==> !InBucket(s.heap, id)
    ensures forall t :: CarriedBy(s, id, t) ==> !InBucket(s.heap, id)
    ensures forall c, t :: !(OnList(s, id, c) && CarriedBy(s, id, t))
    ensures forall c, d :: OnList(s, id, c) && OnList(s, id, d) ==> c == d
    ensures forall t, u :: CarriedBy(s, id, t) && CarriedBy(s, id, u) ==> t == u
    ensures forall c: nat :: OnList(s, id, c) ==> NoDup(s.lists[c])
    ensures InBucket(s.heap, id) ==> NoDup(s.heap.buckets[s.heap.spans[id].npage])
  {
    var k, w := ReachableInv(v, s);
    if IsOut(s.heap, id) {
      match w.home[id]
      case Listed(c) => assert OnList(s, id, c);
      case Carried(t) => assert CarriedBy(s, id, t);
    }
  }

  /** Whenever the page lock is free, the in-use flag is false exactly for the spans in page buckets. */
  lemma UseFlagExact(v: Variant, s: State, id: SpanId)
    requires Reachable(v, s) && id in s.heap.spans && s.pageLock.None?
    ensures !s.heap.spans[id].isUse <==> InBucket(s.heap, id)
  {
    var k, w := ReachableInv(v, s);
    if IsOut(s.heap, id) {
      assert SpanOk(k, s, w, id);
      if w.home[id].Carried? {
        var t := w.home[id].t;
        assert HoldsPage(s.pc[t]) ==> s.pageLock == Some(t);
      }
    } else {
      assert id in s.heap.buckets[s.heap.spans[id].npage];
    }
  }

  /** An address in any page of a span that is out looks that span up. */
  lemma AddressFindsSpan(v: Variant, s: State, id: SpanId, a: Addr)
    requires Reachable(v, s) && IsOut(s.heap, id) && Within(s.heap.spans[id], PageOf(a))
    ensures Get(s.heap, PageOf(a)) == Some(id)
  {
    var k, w := ReachableInv(v, s);
    assert SpanOk(k, s, w, id);
  }

  /** Two holders of one address are one holder: a user, a thread's list, a thread's hand, or a span. */
  lemma OneHolder(v: Variant, s: State, a: Addr, l: Place, m: Place)
    requires Reachable(v, s) && Holds(s, l, a) && Holds(s, m, a)
    ensures l == m
  {
    var k, w := ReachableInv(v, s);
  }

  /** The address an allocation step is about to hand out. */
  function HandedOut(s: State, t: Tid, ev: Event): Option<Addr>
    requires t in s.pc
  {
    if s.pc[t].Deliver? && s.pc[t].got != [] then Some(s.pc[t].got[0])
    else if s.pc[t].Idle? && ev.Alloc? && ValidSize(ev.size) && Cache(s, t)[ClassOf(ev.size)].items != []
    then Some(Cache(s, t)[ClassOf(ev.size)].items[0])
    else None
  }

  /** A thread about to deliver has something to deliver. */
  lemma HandIsFull(v: Variant, s: State, t: Tid)
    requires Reachable(v, s) && t in s.pc && s.pc[t].Deliver?
    ensures s.pc[t].got != []
  {
    var k, w := ReachableInv(v, s);
    assert PcOk(k, s, w.own, t, s.pc[t]);
  }

  lemma HandedOutHolder(k: Setup, s: State, w: Witness, t: Tid, c: nat) returns (a: Addr)
    requires Inv(k, s, w) && t in s.pc && c < NFREELIST
    requires (s.pc[t].Deliver? && s.pc[t].got != []) || Cache(s, t)[c].items != []
    ensures a == if s.pc[t].Deliver? && s.pc[t].got != [] then s.pc[t].got[0] else Cache(s, t)[c].items[0]
    ensures a !in s.live && (s.pc[t].Idle? ==> t in s.caches && s.caches[t][c].size > 0)
  {
    if s.pc[t].Deliver? && s.pc[t].got != [] {
      a := s.pc[t].got[0];
      assert Holds(s, InHand(t), a);
    } else {
      a := Cache(s, t)[c].items[0];
      assert t in s.caches && ListOk(k, s.caches[t][c], c);
      assert Holds(s, Cached(t, c), a);
    }
    assert !Holds(s, WithUser, a);
  }

  lemma HandedOutGoesLive(v: Variant, s: State, t: Tid, ev: Event)
    requires t in s.pc && !BadClass(s.pc[t]) && HandedOut(s, t, ev).Some?
    requires s.pc[t].Idle? ==> Cache(s, t)[ClassOf(ev.size)].size > 0
    ensures HandedOut(s, t, ev).value in Do(v, s, t, ev).live
    ensures s.pc[t].Idle? ==> Do(v, s, t, ev).live[HandedOut(s, t, ev).value] >= ev.size
  {
    if s.pc[t].Idle? {
      RoundUpIsClassSize(ev.size);
    }
  }

  /** No address is handed out while it is live, and the block is as long as was asked for. */
  lemma NeverHandedOutTwice(v: Variant, s: State, t: Tid, ev: Event)
    requires Reachable(v, s) && Enabled(v, s, t, ev) && HandedOut(s, t, ev).Some?
    ensures HandedOut(s, t, ev).value !in s.live
    ensures HandedOut(s, t, ev).value in Do(v, s, t, ev).live
    ensures s.pc[t].Idle? ==> Do(v, s, t, ev).live[HandedOut(s, t, ev).value] >= ev.size
  {
    var k, w := ReachableInv(v, s);
    NoBadClass(k, s, w, t);
    var a := HandedOutHolder(k, s, w, t, if s.pc[t].Deliver? then 0 else ClassOf(ev.size));
    HandedOutGoesLive(v, s, t, ev);
  }

  /** A block of this length ends inside its span: always as intended; as written, when it divides the span. */
  predicate EndsInside(v: Variant, len: nat) {
    len > 0 && (v.carve.Intended? || NumMovePage(len) * PAGESIZE % len == 0)
  }

  /** A live block lies in the pages of a span that is out, with the span's object size as its length. */
  lemma LiveBlock(k: Setup, s: State, w: Witness, a: Addr) returns (id: SpanId)
    requires Inv(k, s, w) && a in s.live
    ensures id in s.heap.spans && IsOut(s.heap, id) && a in Carved(k.v, s.heap.spans[id])
    ensures s.live[a] == s.heap.spans[id].objsize && s.live[a] > 0
    ensures s.heap.spans[id].npage == NumMovePage(s.live[a])
  {
    assert Holds(s, WithUser, a);
    id := w.own[PageOf(a)];
    assert PlaceOk(s.pc, w.home, w.at[a], id);
    assert SpanOk(k, s, w, id);
    assert w.objs[id] == Carved(k.v, s.heap.spans[id]);
    assert k.size[w.home[id].c] == ClassSize(w.home[id].c);
  }

  lemma BlockInside(v: Variant, sp: Span, a: Addr)
    requires a in Carved(v, sp) && sp.npage > 0 && sp.objsize > 0 && sp.npage == NumMovePage(sp.objsize)
    requires EndsInside(v, sp.objsize)
    ensures sp.page * PAGESIZE <= a && a + sp.objsize <= End(sp)
  {
    CarvedStarts(v, sp, a);
    if v.carve.AsWritten? {
      WrittenCarveFits(v, sp);
    }
  }

  /**
   A live block starts inside a span that is out and runs past its end by less than its own length;
   not at all, when blocks of its length end inside.
   */
  lemma LiveBlockInside(v: Variant, s: State, a: Addr) returns (id: SpanId)
    requires Reachable(v, s) && a in s.live
    ensures IsOut(s.heap, id) && s.live[a] > 0
    ensures s.heap.spans[id].page * PAGESIZE <= a < End(s.heap.spans[id])
    ensures EndsInside(v, s.live[a]) ==> a + s.live[a] <= End(s.heap.spans[id])
  {
    var k, w := ReachableInv(v, s);
    id := LiveBlock(k, s, w, a);
    CarvedStarts(v, s.heap.spans[id], a);
    if EndsInside(v, s.live[a]) {
      BlockInside(v, s.heap.spans[id], a);
    }
  }

  lemma SpansApart(h: Heap, own: map<nat, SpanId>, i: SpanId, j: SpanId)
    requires Partition(h, own) && i in h.spans && j in h.spans && i != j
    ensures End(h.spans[i]) <= h.spans[j].page * PAGESIZE || End(h.spans[j]) <= h.spans[i].page * PAGESIZE
  {
    var a, b := h.spans[i], h.spans[j];
    assert Within(a, a.page) && Within(b, b.page);
    assert !Within(a, b.page) && !Within(b, a.page);
  }

  /** Two live blocks never overlap, provided blocks of their lengths end inside their spans. */
  lemma LiveBlocksDisjoint(v: Variant, s: State, a: Addr, b: Addr)
    requires Reachable(v, s) && a in s.live && b in s.live && a != b
    requires EndsInside(v, s.live[a]) && EndsInside(v, s.live[b])
    ensures a + s.live[a] <= b || b + s.live[b] <= a
  {
    var k, w := ReachableInv(v, s);
    var i := LiveBlock(k, s, w, a);
    var j := LiveBlock(k, s, w, b);
    if i == j {
      CarvedDisjoint(v, s.heap.spans[i], a, b);
    } else {
      BlockInside(v, s.heap.spans[i], a);
      BlockInside(v, s.heap.spans[j], b);
      SpansApart(s.heap, w.own, i, j);
    }
  }

  /** A carved object that reaches the end of its span ends exactly there only if its size divides the span. */
  lemma EndsAtEnd(v: Variant, sp: Span, a: Addr)
    requires a in Carved(v, sp) && sp.objsize > 0 && a + sp.objsize == End(sp)
    ensures Bytes(sp) % sp.objsize == 0
  {
    var i := ObjectIndex(sp.page * PAGESIZE, sp.objsize, CarveCount(v, Bytes(sp), sp.objsize), a);
    Distribute(i, 1, sp.objsize);
    ModUnique(Bytes(sp), sp.objsize, i + 1, 0);
  }

  /**
   As written, the live block that reaches the end of its span and a live block that starts there are
   disjoint exactly when the block length divides the span: in every other class they overlap.
   */
  lemma BoundaryBlocksExactly(v: Variant, s: State, a: Addr, b: Addr) returns (id: SpanId)
    requires Reachable(v, s) && v.carve.AsWritten? && a in s.live && b in s.live
    ensures IsOut(s.heap, id) && s.heap.spans[id].page * PAGESIZE <= a < End(s.heap.spans[id]) && s.live[a] > 0
    ensures a + s.live[a] >= End(s.heap.spans[id]) == b ==>
      (a + s.live[a] <= b || b + s.live[b] <= a <==> NumMovePage(s.live[a]) * PAGESIZE % s.live[a] == 0)
  {
    var k, w := ReachableInv(v, s);
    id := LiveBlock(k, s, w, a);
    var sp := s.heap.spans[id];
    CarvedStarts(v, sp, a);
    if EndsInside(v, s.live[a]) {
      BlockInside(v, sp, a);
    }
    if a + s.live[a] == End(sp) {
      EndsAtEnd(v, sp, a);
    }
  }

  /** The objects of a listed span that are not in the span. */
  ghost function OutOf(v: Variant, sp: Span): set<Addr> {
    Elems(Carved(v, sp)) - Elems(sp.objlist)
  }

  /** Objects in the list of a span are its own; the others are outside, each with one holder. */
  lemma ObjectHolders(s: State, w: Witness, id: SpanId)
    requires AgreeOk(s, w.at) && CoverOk(w) && PlacesOk(s, w) && id in w.objs && id in s.heap.spans
    ensures forall a :: a in s.heap.spans[id].objlist ==> a in w.objs[id]
    ensures forall a :: a in w.objs[id] && a !in s.heap.spans[id].objlist ==>
      exists l: Place :: !l.InSpan? && Holds(s, l, a)
  {
    forall a | a in s.heap.spans[id].objlist ensures a in w.objs[id] {
      assert Holds(s, InSpan(id), a);
      assert PlaceOk(s.pc, w.home, w.at[a], w.own[PageOf(a)]);
    }
    forall a | a in w.objs[id] && a !in s.heap.spans[id].objlist
      ensures exists l: Place :: !l.InSpan? && Holds(s, l, a)
    {
      assert PlaceOk(s.pc, w.home, w.at[a], w.own[PageOf(a)]);
      assert Holds(s, w.at[a], a);
    }
  }

  lemma CountOut(part: seq<Addr>, whole: seq<Addr>)
    requires NoDup(part) && NoDup(whole) && forall a :: a in part ==> a in whole
    ensures |Elems(whole) - Elems(part)| == |whole| - |part|
  {
    NoDupSize(part);
    NoDupSize(whole);
    assert Elems(part) <= Elems(whole);
  }

  lemma ListedCount(k: Setup, s: State, w: Witness, id: SpanId, c: nat)
    requires Inv(k, s, w) && OnList(s, id, c)
    ensures id in w.home && w.home[id] == Listed(c) && id in s.heap.spans && id in w.objs
    ensures w.objs[id] == Carved(k.v, s.heap.spans[id])
    ensures s.heap.spans[id].usecount + |s.heap.spans[id].objlist| == |w.objs[id]|
    ensures s.bucketLock[c].None? ==> s.heap.spans[id].usecount > 0
  {
    assert SpanOk(k, s, w, id);
    assert w.objs[id] == Carved(k.v, s.heap.spans[id]);
  }

  /**
   On every central list: the use count is the number of objects outside the span, each with exactly
   one user or thread; together with the span's own list they make up everything carved; and the
   count is positive whenever the bucket lock is free.
   */
  lemma UseCountExact(v: Variant, s: State, id: SpanId, c: nat)
    requires Reachable(v, s) && OnList(s, id, c)
    ensures id in s.heap.spans
    ensures s.heap.spans[id].usecount + |s.heap.spans[id].objlist| == |Carved(v, s.heap.spans[id])|
    ensures s.heap.spans[id].usecount == |OutOf(v, s.heap.spans[id])|
    ensures s.bucketLock[c].None? ==> s.heap.spans[id].usecount > 0
    ensures forall a :: a in OutOf(v, s.heap.spans[id]) ==> exists l: Place :: !l.InSpan? && Holds(s, l, a)
    ensures forall a :: a in s.heap.spans[id].objlist ==> a in Carved(v, s.heap.spans[id])
  {
    var k, w := ReachableInv(v, s);
    ListedCount(k, s, w, id, c);
    ObjectHolders(s, w, id);
    CountOut(s.heap.spans[id].objlist, w.objs[id]);
  }

  lemma GivesWhenLast(v: Variant, s: State, t: Tid, ev: Event)
    requires t in s.pc && s.pc[t].ReturnPut? && s.pc[t].c < NFREELIST && s.pc[t].chain != []
    requires s.pc[t].id in s.heap.spans && s.heap.spans[s.pc[t].id].usecount > 0 && s.pc[t].id in s.lists[s.pc[t].c]
    ensures Do(v, s, t, ev).pc[t].GiveLock? <==> s.heap.spans[s.pc[t].id].usecount == 1
  {
  }

  /** An object of a carved span that some thread has in hand is outside the span. */
  lemma InHandIsOut(v: Variant, s: State, w: Witness, t: Tid, id: SpanId, a: Addr)
    requires LaidOut(v, s.heap, w.objs) && AgreeOk(s, w.at) && id in w.objs && a in w.objs[id]
    requires a in w.at && w.at[a] == InHand(t)
    ensures id in s.heap.spans && a in OutOf(v, s.heap.spans[id])
  {
    assert w.objs[id] == Carved(v, s.heap.spans[id]);
    assert !Holds(s, InSpan(id), a);
  }

  lemma ReturnedIsOut(k: Setup, s: State, w: Witness, t: Tid)
    requires Inv(k, s, w) && t in s.pc && s.pc[t].ReturnPut?
    ensures s.pc[t].chain != [] && s.pc[t].id in s.heap.spans && OnList(s, s.pc[t].id, s.pc[t].c)
    ensures s.heap.spans[s.pc[t].id].usecount > 0
    ensures s.pc[t].chain[0] in OutOf(k.v, s.heap.spans[s.pc[t].id])
  {
    assert PcOk(k, s, w.own, t, s.pc[t]);
    ReturnFacts(k, s, w, t, s.pc[t].c, s.pc[t].chain, s.pc[t].id);
    InHandIsOut(k.v, s, w, t, s.pc[t].id, s.pc[t].chain[0]);
  }

  /** A span starts its way back to the page heap exactly when its last object returns. */
  lemma RetiredWithLastObject(v: Variant, s: State, t: Tid, ev: Event)
    requires Reachable(v, s) && Enabled(v, s, t, ev) && s.pc[t].ReturnPut?
    ensures s.pc[t].chain != [] && s.pc[t].id in s.heap.spans
    ensures Do(v, s, t, ev).pc[t].GiveLock? <==>
              OutOf(v, s.heap.spans[s.pc[t].id]) == {s.pc[t].chain[0]}
  {
    var k, w := ReachableInv(v, s);
    ReturnedIsOut(k, s, w, t);
    UseCountExact(v, s, s.pc[t].id, s.pc[t].c);
    GivesWhenLast(v, s, t, ev);
    if s.heap.spans[s.pc[t].id].usecount == 1 {
      OnlyElement(OutOf(v, s.heap.spans[s.pc[t].id]), s.pc[t].chain[0]);
    }
  }

  lemma OnlyElement<T>(x: set<T>, a: T)
    requires a in x && |x| == 1
    ensures x == {a}
  {
    assert |x - {a}| == 0;
  }

  /** Every thread's list: counter and chain agree, and both stay within the slow-start limit. */
  lemma FreeListsBounded(v: Variant, s: State, t: Tid, c: nat)
    requires Reachable(v, s) && t in s.caches && c < NFREELIST
    ensures ClassSize(c) > 0
    ensures var l := s.caches[t][c];
            l.size == |l.items| <= l.maxSize && 1 <= l.maxSize <= NumMoveSize(ClassSize(c)) + 1 <= 513
  {
    var k, w := ReachableInv(v, s);
    assert ListOk(k, s.caches[t][c], c);
    assert k.ceiling[c] == NumMoveSize(ClassSize(c));
  }

  /** The batch a release step sends back, if it sends one. */
  function Batch(s: State, t: Tid): Option<seq<Addr>>
    requires t in s.pc && s.pc[t].Dealloc?
  {
    var pc := StepDealloc(s, t, s.pc[t].obj, s.pc[t].id).pc[t];
    if pc.ReturnLock? then Some(pc.chain) else None
  }

  lemma DeallocIsStep(v: Variant, s: State, t: Tid, ev: Event)
    requires t in s.pc && s.pc[t].Dealloc?
    ensures Do(v, s, t, ev) == StepDealloc(s, t, s.pc[t].obj, s.pc[t].id)
  {
  }

  lemma BatchIs(k: Setup, s: State, t: Tid, obj: Addr, id: SpanId, c: nat)
    requires t in s.pc && s.pc[t] == Dealloc(obj, id) && t in s.caches && c < NFREELIST && id in s.heap.spans
    requires ListOk(k, s.caches[t][c], c) && ValidSize(s.heap.spans[id].objsize) && Index(s.heap.spans[id].objsize) == c
    ensures var l, o := s.caches[t][c], Batch(s, t);
            o.Some? <==> l.maxSize < l.size + 1
    ensures var l, o := s.caches[t][c], Batch(s, t);
            o.Some? ==> |o.value| == l.maxSize && 0 < l.maxSize <= |l.items| + 1 == l.size + 1
  {
  }

  lemma BatchFacts(k: Setup, s: State, w: Witness, t: Tid, obj: Addr, id: SpanId) returns (c: nat)
    requires Inv(k, s, w) && t in s.pc && s.pc[t] == Dealloc(obj, id)
    ensures t in s.caches && c < NFREELIST && id in s.heap.spans && ListOk(k, s.caches[t][c], c)
    ensures ValidSize(s.heap.spans[id].objsize) && Index(s.heap.spans[id].objsize) == c
  {
    assert PcOk(k, s, w.own, t, s.pc[t]);
    c := FreedClass(k, s, w, t, obj, id);
    assert ListOk(k, s.caches[t][c], c);
  }

  /**
   Every batch cut walks only nodes that exist. The condition the source asserts there, that the batch
   is at least as long as the list, is false at every such cut.
   */
  lemma BatchCutInBounds(v: Variant, s: State, t: Tid, ev: Event) returns (l: FreeList)
    requires Reachable(v, s) && Enabled(v, s, t, ev) && s.pc[t].Dealloc? && Batch(s, t).Some?
    ensures t in s.caches && l in s.caches[t]
    ensures |Batch(s, t).value| == l.maxSize && 0 < l.maxSize <= |l.items| + 1 == l.size + 1
    ensures !(l.maxSize >= l.size + 1)
    ensures Do(v, s, t, ev).pc[t] == ReturnLock(Index(s.heap.spans[s.pc[t].id].objsize), Batch(s, t).value)
  {
    DeallocIsStep(v, s, t, ev);
    var k, w := ReachableInv(v, s);
    var c := BatchFacts(k, s, w, t, s.pc[t].obj, s.pc[t].id);
    l := s.caches[t][c];
    BatchIs(k, s, t, s.pc[t].obj, s.pc[t].id, c);
  }
}
