/**
 The page heap as the source writes it: an object whose fields its methods update, with the bucket
 scan, the tagging loops and the two merge loops, over the radix tree. Each method computes the
 function of the same name on the heap value, and no `set` meets a missing leaf.
 */
module PageCache {
  import opened Basics
  import opened SizeClass
  import opened PageHeap
  import opened PageHeapInvariant
  import PM = PageMap

  lemma FrontIs(h: Heap, i: nat)
    requires BucketsOk(h) && 0 < i < NPAGES && h.buckets[i] != []
    ensures h.buckets[i][0] in h.spans && h.spans[h.buckets[i][0]].npage == i
  {
    assert h.buckets[i][0] in h.buckets[i];
  }

  lemma FrontHeld(h: Heap, id: SpanId)
    requires Usable(h) && id in h.spans
    ensures forall p: nat :: h.spans[id].page <= p < h.spans[id].page + h.spans[id].npage ==> p in h.pages
  {
    forall p: nat | h.spans[id].page <= p < h.spans[id].page + h.spans[id].npage ensures p in h.pages {
      assert Within(h.spans[id], p);
    }
  }

  /** The partition, the buckets and the boundary tags hold for some ownership of the pages. */
  ghost predicate Well(h: Heap) {
    exists own :: HeapInv(h, own, {}) && EndsTagged(h, {})
  }

  /** The system's next region is new. */
  ghost predicate Fits(h: Heap, n: nat, sys: nat) {
    0 < n < NPAGES && sys > 0 && PageRange(sys, NPAGES - 1) !! h.pages
  }

  lemma NewSpanWell(v: Variant, h: Heap, n: nat, sys: nat)
    requires Well(h) && Fits(h, n, sys)
    ensures NewSpan(v, h, n, sys).Done? && Well(NewSpan(v, h, n, sys).value.0)
    ensures var (h', id) := NewSpan(v, h, n, sys).value; id in h'.spans && h'.spans[id].npage == n && IsOut(h', id)
  {
    var own :| HeapInv(h, own, {}) && EndsTagged(h, {});
    var own' := NewSpanOk(v, h, own, n, sys);
  }

  lemma ReleaseWell(h: Heap, id: SpanId)
    requires Well(h) && IsOut(h, id) && OutMarked(h, id) && h.spans[id].usecount == 0 && h.spans[id].objlist == []
    ensures PageHeap.Release(h, id).Done?
    ensures var h' := PageHeap.Release(h, id).value;
            && Well(h') && Usable(h') && InBucket(h', id) && Maximal(h', id) && h'.pages == h.pages
  {
    var own :| HeapInv(h, own, {}) && EndsTagged(h, {});
    var own' := ReleaseOk(h, own, id);
    WellUsable(PageHeap.Release(h, id).value);
  }

  /** Parking moves no pages, so the pages of the parked span were held before. */
  lemma ParkHeld(m: Heap, h': Heap, id: SpanId)
    requires Park(m, id) == Done(h') && Usable(h')
    ensures forall p: nat :: m.spans[id].page <= p < m.spans[id].page + m.spans[id].npage ==> p in m.pages
  {
    FrontHeld(h', id);
  }

  /** What taking a span relies on: buckets, pool, and spans that lie in obtained pages. */
  ghost predicate Usable(h: Heap) {
    && BucketsOk(h) && PoolOk(h)
    && forall id, p: nat {:trigger Within(h.spans[id], p)} :: id in h.spans && Within(h.spans[id], p) ==> p in h.pages
  }

  lemma WellUsable(h: Heap)
    requires Well(h)
    ensures Usable(h)
  {
    var own :| HeapInv(h, own, {}) && EndsTagged(h, {});
    assert own.Keys == h.pages;
  }

  lemma RefillUsable(h: Heap, sys: nat)
    requires Usable(h)
    ensures Usable(Refill(h, sys))
  {
    RefillBuckets(h, sys);
    var h' := Refill(h, sys);
    forall id, p: nat | id in h'.spans && Within(h'.spans[id], p) ensures p in h'.pages {
      if id in h.spans && h'.spans[id] == h.spans[id] {
        assert Within(h.spans[id], p);
      }
    }
  }

  lemma RefillFront(v: Variant, h: Heap, sys: nat, n: nat)
    requires Usable(h) && 0 < n < NPAGES && FirstBucket(h.buckets, n) == NPAGES
    ensures Usable(Refill(h, sys)) && FirstBucket(Refill(h, sys).buckets, n) < NPAGES
    ensures NewSpan(v, h, n, sys) == NewSpan(v, Refill(h, sys), n, sys)
  {
    RefillUsable(h, sys);
    assert Refill(h, sys).buckets[NPAGES - 1] != [];
  }

  /** The leaves asked for when the heap grows serve every page it grows by. */
  lemma GrowCovers(bits: nat, sys: nat, p: nat)
    requires 2 <= bits < 64 && sys + NPAGES - 1 <= Pow2(bits) && sys <= p < sys + NPAGES - 1
    ensures sys < WORD && p < Pow2(bits) && PM.Covers(bits, sys, PM.Last(sys, (NPAGES - 1) * PAGESIZE), p)
  {
    Pow2Word();
    Pow2Strict(bits, 63);
    assert Pow2(64) == 2 * Pow2(63);
    PM.RangeCovered(bits, sys, (NPAGES - 1) * PAGESIZE);
  }

  /** The records and buckets after a split; the tags are as before. */
  function Relinked(h: Heap, i: nat, n: nat): Heap
    requires 0 < n < i < NPAGES && h.buckets[i] != [] && h.buckets[i][0] in h.spans
  {
    var (id, pool) := PoolNew(h.pool);
    var rest := h.buckets[i][0];
    var sp := h.spans[rest];
    var popped: Buckets := h.buckets[i := h.buckets[i][1..]];
    h.(spans := h.spans[id := FreshSpan(sp.page, n)][rest := sp.(page := sp.page + n, npage := i - n)],
       buckets := popped[i - n := [rest] + popped[i - n]],
       pool := pool)
  }

  /** The rest is tagged at both ends, the head page by page. */
  function TagsAfterSplit(tags: map<nat, SpanId>, page: nat, i: nat, n: nat, id: SpanId, rest: SpanId): map<nat, SpanId>
    requires 0 < n < i
  {
    SetRange(tags[page + n := rest][page + n + (i - n) - 1 := rest], page, n, id)
  }

  lemma SplitIs(h: Heap, i: nat, n: nat)
    requires 0 < n < i < NPAGES && h.buckets[i] != [] && h.buckets[i][0] in h.spans
    requires h.spans[h.buckets[i][0]].npage == i
    ensures var id, rest := PoolNew(h.pool).0, h.buckets[i][0];
            var tags := TagsAfterSplit(h.tags, h.spans[rest].page, i, n, id, rest);
            Split(h, i, n) == Done((Relinked(h, i, n).(tags := tags), id))
  {
  }

  class PageCache {
    const variant: Variant
    const pagelist: array<seq<SpanId>>
    const idSpanMap: PM.PageMap
    var spans: map<SpanId, Span>
    var pool: Pool
    ghost var pages: set<nat>

    /** The heap value these fields stand for. */
    ghost function Model(): Heap
      requires pagelist.Length == NPAGES
      reads this, pagelist, idSpanMap
    {
      Heap(spans, pagelist[..], idSpanMap.contents, pool, pages)
    }

    /** The tree is in order and has a leaf for every page obtained. */
    ghost predicate MapOk()
      reads this`pages, idSpanMap, idSpanMap.root, idSpanMap.nodeHome.Keys, idSpanMap.leafHome.Keys
    {
      idSpanMap.Valid() && forall p :: p in pages ==> idSpanMap.Settable(p)
    }

    ghost predicate Shape()
      reads this, pagelist, idSpanMap, idSpanMap.root, idSpanMap.nodeHome.Keys, idSpanMap.leafHome.Keys
    {
      pagelist.Length == NPAGES && MapOk()
    }

    ghost predicate Valid()
      reads this, pagelist, idSpanMap, idSpanMap.root, idSpanMap.nodeHome.Keys, idSpanMap.leafHome.Keys
    {
      Shape() && Well(Model())
    }

    /** The source has 35 bits of page number. */
    constructor (v: Variant, bits: nat)
      requires 2 <= bits < 64
      ensures variant == v && idSpanMap.bits == bits && fresh(pagelist) && fresh(idSpanMap) && Valid() &&
        Model() == EmptyHeap()
    {
      variant := v;
      spans, pool, pages := map[], Pool([], 0), {};
      pagelist := new seq<SpanId>[NPAGES](_ => []);
      idSpanMap := new PM.PageMap(bits);
      new;
      assert pagelist[..] == EmptyHeap().buckets;
      assert Model() == EmptyHeap();
      assert HeapInv(EmptyHeap(), map[], {}) by {
        assert Partition(EmptyHeap(), map[]) && PoolOk(EmptyHeap());
      }
    }

    ghost predicate Held(page: nat, n: nat)
      reads this`pages
    {
      forall p :: page <= p < page + n ==> p in pages
    }

    /** A page obtained from the system always has a leaf to be tagged in. */
    method SetTag(key: nat, id: SpanId)
      requires MapOk() && key in pages
      modifies idSpanMap`contents, idSpanMap.leafHome.Keys
      ensures MapOk() && idSpanMap.contents == old(idSpanMap.contents)[key := id]
    {
      idSpanMap.Set(key, id);
    }

    /** How many keys `i` rounds of the exact-bucket loop set. */
    function Keys(i: nat): nat {
      if variant.tags.Intended? || i == 0 then i else 1
    }

    /** The exact-bucket loop: as written, every round sets the key of the first page. */
    method TagExact(page: nat, n: nat, id: SpanId)
      requires MapOk() && Held(page, n)
      modifies idSpanMap`contents, idSpanMap.leafHome.Keys
      ensures MapOk() && idSpanMap.contents == SetRange(old(idSpanMap.contents), page, Keys(n), id)
    {
      var i := 0;
      while i < n
        invariant 0 <= i <= n && MapOk()
        invariant idSpanMap.contents == SetRange(old(idSpanMap.contents), page, Keys(i), id)
      {
        ghost var k := Keys(i);
        if variant.tags.Intended? {
          SetTag(page + i, id);
        } else {
          SetTag(page, id);
        }
        i := i + 1;
        assert Keys(i) == if variant.tags.Intended? then k + 1 else 1;
      }
    }

    method TagAll(page: nat, n: nat, id: SpanId)
      requires MapOk() && Held(page, n)
      modifies idSpanMap`contents, idSpanMap.leafHome.Keys
      ensures MapOk() && idSpanMap.contents == SetRange(old(idSpanMap.contents), page, n, id)
    {
      var i := 0;
      while i < n
        invariant 0 <= i <= n && MapOk() && idSpanMap.contents == SetRange(old(idSpanMap.contents), page, i, id)
      {
        ghost var tags := idSpanMap.contents;
        SetTag(page + i, id);
        i := i + 1;
        assert idSpanMap.contents == tags[page + i - 1 := id];
      }
    }

    /** Tags both ends of a span. */
    method TagEnds(page: nat, n: nat, id: SpanId)
      requires MapOk() && n > 0 && page in pages && page + n - 1 in pages
      modifies idSpanMap`contents, idSpanMap.leafHome.Keys
      ensures MapOk() && idSpanMap.contents == old(idSpanMap.contents)[page := id][page + n - 1 := id]
    {
      SetTag(page, id);
      SetTag(page + n - 1, id);
    }

    /** A record from the pool: the one freed last, else one never handed out. */
    method NewRecord() returns (id: SpanId)
      modifies this`pool
      ensures (id, pool) == PoolNew(old(pool))
    {
      if pool.free != [] {
        id := pool.free[0];
        pool := pool.(free := pool.free[1..]);
      } else {
        id := pool.unused;
        pool := pool.(unused := pool.unused + 1);
      }
    }

    /** The front of a bucket, to be tagged page by page. */
    method TakeFront(n: nat) returns (id: SpanId)
      requires Shape() && 0 < n < NPAGES && pagelist[n] != []
      requires pagelist[n][0] in spans && spans[pagelist[n][0]].npage == n
      requires Held(spans[pagelist[n][0]].page, n)
      modifies pagelist, idSpanMap`contents, idSpanMap.leafHome.Keys
      ensures Shape() && TakeExact(variant, old(Model()), n) == Done((Model(), id))
    {
      ghost var h := Model();
      id := pagelist[n][0];
      pagelist[n] := pagelist[n][1..];
      TagExact(spans[id].page, spans[id].npage, id);
      assert pagelist[..] == h.buckets[n := h.buckets[n][1..]];
    }

    /** The records and buckets of a split: the head becomes a new span, the rest moves bucket. */
    method Relink(i: nat, n: nat) returns (id: SpanId, rest: SpanId)
      requires pagelist.Length == NPAGES && 0 < n < i < NPAGES && pagelist[i] != []
      requires pagelist[i][0] in spans && spans[pagelist[i][0]].npage == i && PoolNew(pool).0 !in spans
      modifies this`spans, this`pool, pagelist
      ensures id == PoolNew(old(pool)).0 && rest == old(pagelist[i][0])
      ensures Model() == Relinked(old(Model()), i, n)
    {
      id := NewRecord();
      rest := pagelist[i][0];
      pagelist[i] := pagelist[i][1..];
      var sp := spans[rest];
      spans := spans[id := FreshSpan(sp.page, n)];
      spans := spans[rest := sp.(page := sp.page + n, npage := sp.npage - n)];
      pagelist[i - n] := [rest] + pagelist[i - n];
    }

    /** The rest is tagged at both ends, the head page by page. */
    method TagSplit(page: nat, i: nat, n: nat, id: SpanId, rest: SpanId)
      requires MapOk() && 0 < n < i && Held(page, i)
      modifies idSpanMap`contents, idSpanMap.leafHome.Keys
      ensures MapOk() && idSpanMap.contents == TagsAfterSplit(old(idSpanMap.contents), page, i, n, id, rest)
    {
      HeldParts(page, i, n);
      TagEnds(page + n, i - n, rest);
      TagAll(page, n, id);
    }

    lemma HeldParts(page: nat, i: nat, n: nat)
      requires 0 < n < i && Held(page, i)
      ensures Held(page, n) && page + n in pages && page + n + (i - n) - 1 in pages
    {
    }

    /** Cuts `n` pages off the front span of bucket `i`. */
    method SplitFront(i: nat, n: nat) returns (id: SpanId)
      requires Shape() && 0 < n < i < NPAGES && pagelist[i] != []
      requires pagelist[i][0] in spans && spans[pagelist[i][0]].npage == i
      requires PoolNew(pool).0 !in spans
      requires Held(spans[pagelist[i][0]].page, i)
      modifies this`spans, this`pool, pagelist, idSpanMap`contents, idSpanMap.leafHome.Keys
      ensures Shape() && Split(old(Model()), i, n) == Done((Model(), id))
    {
      SplitIs(Model(), i, n);
      var page := spans[pagelist[i][0]].page;
      var rest;
      id, rest := Relink(i, n);
      TagSplit(page, i, n, id, rest);
    }

    /** Keeps 128 fresh pages as one free span, with leaves for all of them. */
    method Grow(sys: nat)
      requires Shape() && sys + NPAGES - 1 <= Pow2(idSpanMap.bits)
      modifies this`spans, this`pool, this`pages, pagelist
      modifies idSpanMap`nodeHome, idSpanMap`leafHome, idSpanMap.root, idSpanMap.nodeHome.Keys
      ensures Shape() && Model() == Refill(old(Model()), sys)
      ensures fresh(idSpanMap.nodeHome.Keys - old(idSpanMap.nodeHome.Keys))
      ensures fresh(idSpanMap.leafHome.Keys - old(idSpanMap.leafHome.Keys))
    {
      AddLeaves(sys);
      AddBig(sys);
    }

    /** The record of a span of 128 pages, linked in the last bucket. */
    method AddBig(sys: nat)
      requires pagelist.Length == NPAGES
      modifies this`spans, this`pool, pagelist
      ensures pool == PoolNew(old(pool)).1
      ensures var big := FreshSpan(sys, NPAGES - 1).(objsize := (NPAGES - 1) * PAGESIZE);
              spans == old(spans)[PoolNew(old(pool)).0 := big]
      ensures pagelist[..] == old(pagelist[..])[NPAGES - 1 := [PoolNew(old(pool)).0] + old(pagelist[NPAGES - 1])]
    {
      var id := NewRecord();
      spans := spans[id := FreshSpan(sys, NPAGES - 1).(objsize := (NPAGES - 1) * PAGESIZE)];
      pagelist[NPAGES - 1] := [id] + pagelist[NPAGES - 1];
    }

    /** 128 more pages, with leaves for all of them. */
    method AddLeaves(sys: nat)
      requires MapOk() && sys + NPAGES - 1 <= Pow2(idSpanMap.bits)
      modifies this`pages, idSpanMap`nodeHome, idSpanMap`leafHome, idSpanMap.root, idSpanMap.nodeHome.Keys
      ensures MapOk() && pages == old(pages) + PageRange(sys, NPAGES - 1)
      ensures fresh(idSpanMap.nodeHome.Keys - old(idSpanMap.nodeHome.Keys))
      ensures fresh(idSpanMap.leafHome.Keys - old(idSpanMap.leafHome.Keys))
    {
      GrowCovers(idSpanMap.bits, sys, sys);
      var _ := idSpanMap.Ensure(sys, (NPAGES - 1) * PAGESIZE);
      ghost var added := PageRange(sys, NPAGES - 1);
      forall p | p in added ensures idSpanMap.Settable(p) {
        GrowCovers(idSpanMap.bits, sys, p);
      }
      pages := pages + added;
    }

    /** A span off the front of bucket `i`, whole or cut. */
    method TakeSpan(i: nat, n: nat) returns (id: SpanId)
      requires Shape() && Usable(Model()) && 0 < n < NPAGES && i == FirstBucket(pagelist[..], n) < NPAGES
      modifies this`spans, this`pool, pagelist, idSpanMap`contents, idSpanMap.leafHome.Keys
      ensures Shape() && Take(variant, old(Model()), n) == Done((Model(), id))
    {
      FrontIs(Model(), i);
      FrontHeld(Model(), pagelist[i][0]);
      PoolNewOk(Model());
      if i == n {
        id := TakeFront(n);
      } else {
        id := SplitFront(i, n);
      }
    }

    /** `new_Span`: the exact bucket, else a split, else a refill and one more attempt. */
    method NewSpan(n: nat, sys: nat) returns (id: SpanId)
      requires Shape() && Usable(Model()) && 0 < n < NPAGES && sys + NPAGES - 1 <= Pow2(idSpanMap.bits)
      modifies this, pagelist, idSpanMap, idSpanMap.root, idSpanMap.nodeHome.Keys, idSpanMap.leafHome.Keys
      ensures Shape() && PageHeap.NewSpan(variant, old(Model()), n, sys) == Done((Model(), id))
      ensures fresh(idSpanMap.nodeHome.Keys - old(idSpanMap.nodeHome.Keys))
      ensures fresh(idSpanMap.leafHome.Keys - old(idSpanMap.leafHome.Keys))
      decreases if FirstBucket(pagelist[..], n) < NPAGES then 0 else 1, 1
    {
      var i := FindBucket(n);
      if i < NPAGES {
        id := TakeSpan(i, n);
      } else {
        id := GrowAndRetry(n, sys);
      }
    }

    /** `new_Span` on a well-formed heap, with a region from the system that is new. */
    method ObtainSpan(n: nat, sys: nat) returns (id: SpanId)
      requires Valid() && Fits(Model(), n, sys) && sys + NPAGES - 1 <= Pow2(idSpanMap.bits)
      modifies this, pagelist, idSpanMap, idSpanMap.root, idSpanMap.nodeHome.Keys, idSpanMap.leafHome.Keys
      ensures Valid() && PageHeap.NewSpan(variant, old(Model()), n, sys) == Done((Model(), id))
      ensures id in spans && spans[id].npage == n && IsOut(Model(), id)
    {
      NewSpanWell(variant, Model(), n, sys);
      WellUsable(Model());
      id := NewSpan(n, sys);
    }

    /** The heap grows and `new_Span` is called once more, which then finds a span. */
    method GrowAndRetry(n: nat, sys: nat) returns (id: SpanId)
      requires Shape() && Usable(Model()) && 0 < n < NPAGES && sys + NPAGES - 1 <= Pow2(idSpanMap.bits)
      requires FirstBucket(pagelist[..], n) == NPAGES
      modifies this, pagelist, idSpanMap, idSpanMap.root, idSpanMap.nodeHome.Keys, idSpanMap.leafHome.Keys
      ensures Shape() && PageHeap.NewSpan(variant, old(Model()), n, sys) == Done((Model(), id))
      ensures fresh(idSpanMap.nodeHome.Keys - old(idSpanMap.nodeHome.Keys))
      ensures fresh(idSpanMap.leafHome.Keys - old(idSpanMap.leafHome.Keys))
      decreases 1, 0
    {
      RefillFront(variant, Model(), sys, n);
      Grow(sys);
      id := NewSpan(n, sys);
    }

    /** The bucket scan, from the exact size upwards. */
    method FindBucket(n: nat) returns (i: nat)
      requires pagelist.Length == NPAGES && 0 < n < NPAGES
      ensures i == FirstBucket(pagelist[..], n)
    {
      i := n;
      while i < NPAGES && pagelist[i] == []
        invariant n <= i <= NPAGES && FirstBucket(pagelist[..], i) == FirstBucket(pagelist[..], n)
      {
        i := i + 1;
      }
    }

    /** The key before a page: page numbers are unsigned words. */
    method Before(page: nat) returns (r: Option<SpanId>)
      requires Shape()
      ensures r == PageHeap.Get(Model(), page - 1)
    {
      PM.NoWrap(idSpanMap.bits);
      idSpanMap.KeysSmall(WORD - 1);
      r := idSpanMap.Get(if page == 0 then WORD - 1 else page - 1);
    }

    /** Swallows free neighbours on the left, one round per neighbour. */
    method MergeLeftLoop(id: SpanId)
      requires Shape() && id in spans && MergeLeft(Model(), id).Done?
      modifies this`spans, this`pool, pagelist
      ensures Shape() && MergeLeft(old(Model()), id) == Done(Model()) && id in spans
    {
      while true
        invariant Shape() && id in spans && MergeLeft(Model(), id) == MergeLeft(old(Model()), id)
        decreases NPAGES - spans[id].npage
      {
        var ret := Before(spans[id].page);
        if ret.None? { break; }
        var r := ret.value;
        if spans[r].isUse { break; }
        if spans[r].npage + spans[id].npage >= NPAGES { break; }
        Swallow(id, r, spans[r].page);
      }
    }

    /** The same on the right, where the first page stays. */
    method MergeRightLoop(id: SpanId)
      requires Shape() && id in spans && MergeRight(Model(), id).Done?
      modifies this`spans, this`pool, pagelist
      ensures Shape() && MergeRight(old(Model()), id) == Done(Model()) && id in spans
    {
      while true
        invariant Shape() && id in spans && MergeRight(Model(), id) == MergeRight(old(Model()), id)
        decreases NPAGES - spans[id].npage
      {
        var ret := idSpanMap.Get(spans[id].page + spans[id].npage);
        if ret.None? { break; }
        var r := ret.value;
        if spans[r].isUse { break; }
        if spans[r].npage + spans[id].npage >= NPAGES { break; }
        Swallow(id, r, spans[id].page);
      }
    }

    /** One merge: `r` is unlinked from its bucket and its record deleted. */
    method Swallow(id: SpanId, r: SpanId, page: nat)
      requires pagelist.Length == NPAGES && id in spans && r in spans && Unlinkable(Model(), id, r)
      modifies this`spans, this`pool, pagelist
      ensures Model() == Absorb(old(Model()), id, r, page)
    {
      ghost var h := Model();
      var sp, nb := spans[id], spans[r];
      pagelist[nb.npage] := Remove(pagelist[nb.npage], r);
      spans := (spans - {r})[id := sp.(page := page, npage := sp.npage + nb.npage)];
      pool := PoolDelete(pool, r);
      assert pagelist[..] == h.buckets[nb.npage := Remove(h.buckets[nb.npage], r)];
    }

    /** The merged span goes to the front of its bucket, tagged at both ends. */
    method Shelve(id: SpanId)
      requires Shape() && Park(Model(), id).Done? && Held(spans[id].page, spans[id].npage)
      modifies this`spans, pagelist, idSpanMap`contents, idSpanMap.leafHome.Keys
      ensures Shape() && Park(old(Model()), id) == Done(Model())
    {
      ghost var h := Model();
      var sp := spans[id];
      pagelist[sp.npage] := [id] + pagelist[sp.npage];
      spans := spans[id := sp.(isUse := false)];
      TagEnds(sp.page, sp.npage, id);
      assert pagelist[..] == h.buckets[sp.npage := [id] + h.buckets[sp.npage]];
    }

    /**
     `relase_to_PageCache` for a span that is out, has no objects, and is the only one not marked in
     use: both loops end without touching a dead record, and the heap stays well formed.
     */
    method Release(id: SpanId)
      requires Valid() && IsOut(Model(), id) && OutMarked(Model(), id)
      requires spans[id].usecount == 0 && spans[id].objlist == []
      modifies this`spans, this`pool, pagelist, idSpanMap`contents, idSpanMap.leafHome.Keys
      ensures Valid() && PageHeap.Release(old(Model()), id) == Done(Model())
      ensures InBucket(Model(), id) && Maximal(Model(), id)
    {
      ghost var h := Model();
      ReleaseWell(h, id);
      MergeLeftLoop(id);
      MergeRightLoop(id);
      assert PageHeap.Release(h, id) == Park(Model(), id);
      ParkHeld(Model(), PageHeap.Release(h, id).value, id);
      Shelve(id);
    }

    /** `map_object_to_Span`: the lookup a null result of which is an assertion failure. */
    method MapObjectToSpan(obj: Addr) returns (r: Outcome<SpanId>)
      requires Shape()
      ensures r == match PageHeap.Get(Model(), obj / PAGESIZE) case None => Fault case Some(id) => Done(id)
      ensures forall id :: id in spans && FullyTagged(Model(), id) && Within(spans[id], obj / PAGESIZE) ==>
        r == Done(id)
    {
      var pageId := obj / PAGESIZE;
      var ret := idSpanMap.Get(pageId);
      r := if ret.Some? then Done(ret.value) else Fault;
    }
  }
}
