/**
 Exactly which span the page heap hands out, what a release leaves in which bucket, and where the
 records go: stated on the heaps before and after, not by the functions that compute them.
 */
module PageHeapExact {
  import opened Basics
  import opened SizeClass
  import opened PageHeap
  import opened PageHeapInvariant
  import opened PageHeapRuns

  // ---- what new_Span takes

  /** All buckets but `i` and `j` are as they were. */
  ghost predicate OtherBucketsSame(h: Heap, h': Heap, i: nat, j: nat) {
    forall k :: 0 <= k < NPAGES && k != i && k != j ==> h'.buckets[k] == h.buckets[k]
  }

  /** The pages from `page` to page + n - 1 are tagged with `id`; `a` and `b` with `rest`; no other tag changes. */
  ghost predicate Tagged(h: Heap, h': Heap, page: nat, n: nat, id: SpanId, a: nat, b: nat, rest: SpanId) {
    forall p: nat ::
      Get(h', p) == if page <= p < page + n then Some(id) else if p == a || p == b then Some(rest) else Get(h, p)
  }

  /** Pages tagged when a span leaves its bucket whole: as written only the first. */
  function TagsOnTake(v: Variant, n: nat): nat {
    if v.tags.Intended? then n else 1
  }

  /** Bucket `n` had a span of the requested size: its front, as it is. */
  ghost predicate TookFront(v: Variant, h: Heap, h': Heap, id: SpanId, n: nat)
    requires n < NPAGES && h.buckets[n] != []
  {
    && id in h.spans && Tagged(h, h', h.spans[id].page, TagsOnTake(v, n), id, h.spans[id].page, h.spans[id].page, id)
    && id == h.buckets[n][0] && h'.spans == h.spans && h'.pages == h.pages && h'.pool == h.pool
    && h'.buckets[n] == h.buckets[n][1..] && OtherBucketsSame(h, h', n, n)
  }

  /**
   The front span of bucket `i` was cut: its first `n` pages are the new span, with nothing in it, and
   the other i - n pages keep their record and move to the front of their bucket.
   */
  ghost predicate CutFront(h: Heap, h': Heap, id: SpanId, n: nat, i: nat)
    requires 0 < n < i < NPAGES && h.buckets[i] != []
  {
    var first := h.buckets[i][0];
    && id !in h.spans && first in h.spans && h'.spans.Keys == h.spans.Keys + {id} && h'.pages == h.pages
    && h'.spans[id] == Span(h.spans[first].page, n, false, 0, 0, [])
    && h'.spans[first] == h.spans[first].(page := h.spans[first].page + n, npage := i - n)
    && (forall j :: j in h.spans && j != first ==> h'.spans[j] == h.spans[j])
    && Tagged(h, h', h.spans[first].page, n, id, h.spans[first].page + n, h.spans[first].page + i - 1, first)
    && h'.buckets[i] == h.buckets[i][1..] && h'.buckets[i - n] == [first] + h.buckets[i - n]
    && OtherBucketsSame(h, h', i, i - n)
  }

  /** The system was asked for 128 pages at `sys`: `n` of them are handed out, the others are free. */
  ghost predicate TookNew(v: Variant, h: Heap, h': Heap, id: SpanId, n: nat, sys: nat)
    requires 0 < n < NPAGES
  {
    && (forall p :: p in h'.pages <==> p in h.pages || sys <= p < sys + 128)
    && id in h'.spans && id !in h.spans && h'.spans[id].page == sys && h'.spans[id].npage == n
    && (forall j :: j in h.spans ==> j in h'.spans && h'.spans[j] == h.spans[j])
    && if n == 128 then
         && h'.spans.Keys == h.spans.Keys + {id} && h'.buckets == h.buckets
         && Tagged(h, h', sys, TagsOnTake(v, n), id, sys, sys, id)
       else exists rest ::
         && Tagged(h, h', sys, n, id, sys + n, sys + 127, rest)
         && rest !in h.spans && rest != id && h'.spans.Keys == h.spans.Keys + {id, rest}
         && h'.spans[rest] == Span(sys + n, 128 - n, false, 1048576, 0, [])
         && h'.buckets[128 - n] == [rest] + h.buckets[128 - n] && OtherBucketsSame(h, h', 128, 128 - n)
         && h'.buckets[128] == h.buckets[128]
  }

  /** Bucket `i` is the first from `n` on that has a span. */
  predicate Smallest(b: Buckets, n: nat, i: nat)
    requires i < NPAGES
  {
    n <= i && b[i] != [] && forall j :: n <= j < i ==> b[j] == []
  }

  predicate NoneFits(b: Buckets, n: nat) {
    forall j :: n <= j < NPAGES ==> b[j] == []
  }

  lemma SmallestIs(b: Buckets, n: nat, i: nat)
    requires n <= NPAGES
    ensures i < NPAGES && Smallest(b, n, i) ==> FirstBucket(b, n) == i
    ensures NoneFits(b, n) <==> FirstBucket(b, n) == NPAGES
  {
  }

  lemma FrontInBucket(h: Heap, i: nat)
    requires BucketsOk(h) && 0 < i < NPAGES && h.buckets[i] != []
    ensures h.buckets[i][0] in h.spans && h.spans[h.buckets[i][0]].npage == i
  {
    assert h.buckets[i][0] in h.buckets[i];
  }

  lemma CutIs(h: Heap, i: nat, n: nat)
    requires BucketsOk(h) && PoolOk(h) && 0 < n < i < NPAGES && h.buckets[i] != []
    ensures Split(h, i, n).Done? && CutFront(h, Split(h, i, n).value.0, Split(h, i, n).value.1, n, i)
  {
    FrontInBucket(h, i);
    PoolNewOk(h);
  }

  /**
   `new_Span` takes a span of exactly n pages when there is one, else cuts the front of the smallest
   larger bucket, and asks the system only when no bucket from n on has a span.
   */
  lemma NewSpanExactly(v: Variant, h: Heap, n: nat, sys: nat)
    requires BucketsOk(h) && PoolOk(h) && 0 < n < NPAGES
    ensures NewSpan(v, h, n, sys).Done?
    ensures var (h', id) := NewSpan(v, h, n, sys).value;
            && (h.buckets[n] != [] ==> TookFront(v, h, h', id, n))
            && (forall i :: n < i < NPAGES && Smallest(h.buckets, n, i) ==> CutFront(h, h', id, n, i))
            && (NoneFits(h.buckets, n) ==> TookNew(v, h, h', id, n, sys))
  {
    var i := FirstBucket(h.buckets, n);
    SmallestIs(h.buckets, n, i);
    if i == n {
      FrontInBucket(h, n);
    } else if i < NPAGES {
      CutIs(h, i, n);
      assert forall j :: n < j < NPAGES && Smallest(h.buckets, n, j) ==> j == i;
    } else {
      NewIs(v, h, n, sys);
    }
  }

  lemma NewIs(v: Variant, h: Heap, n: nat, sys: nat)
    requires BucketsOk(h) && PoolOk(h) && 0 < n < NPAGES && FirstBucket(h.buckets, n) == NPAGES
    ensures NewSpan(v, h, n, sys).Done?
    ensures TookNew(v, h, NewSpan(v, h, n, sys).value.0, NewSpan(v, h, n, sys).value.1, n, sys)
  {
    var r := Refilled(h, sys, n);
    if n < 128 {
      CutIs(r, 128, n);
      CutOfNew(v, h, r, NewSpan(v, h, n, sys).value.0, NewSpan(v, h, n, sys).value.1, n, sys);
    }
  }

  /** The heap after 128 more pages: one more span, alone in the last bucket. */
  ghost predicate Added(h: Heap, r: Heap, sys: nat) {
    && (forall p :: p in r.pages <==> p in h.pages || sys <= p < sys + 128)
    && |r.buckets[128]| == 1 && h.buckets[128] == [] && r.buckets[128][0] !in h.spans
    && r.tags == h.tags && r.spans == h.spans[r.buckets[128][0] := Span(sys, 128, false, 1048576, 0, [])]
    && OtherBucketsSame(h, r, 128, 128)
  }

  lemma Refilled(h: Heap, sys: nat, n: nat) returns (r: Heap)
    requires BucketsOk(h) && PoolOk(h) && 0 < n < NPAGES && FirstBucket(h.buckets, n) == NPAGES
    ensures r == Refill(h, sys) && Added(h, r, sys) && BucketsOk(r) && PoolOk(r)
    ensures FirstBucket(r.buckets, n) == 128
  {
    r := Refill(h, sys);
    PoolNewOk(h);
    RefillBuckets(h, sys);
    RefillFirst(h, sys, n);
    assert h.buckets[128] == [];
  }

  lemma CutOfNew(v: Variant, h: Heap, r: Heap, h': Heap, id: SpanId, n: nat, sys: nat)
    requires 0 < n < 128 && Added(h, r, sys) && CutFront(r, h', id, n, 128)
    ensures TookNew(v, h, h', id, n, sys)
  {
    var rest := r.buckets[128][0];
    assert h'.spans[rest] == Span(sys + n, 128 - n, false, 1048576, 0, []);
    assert h'.buckets[128 - n] == [rest] + h.buckets[128 - n];
  }

  // ---- records

  /** A record deleted is the next one handed out; otherwise they go out in the order they were deleted. */
  lemma PoolIsLifo(pool: Pool, id: SpanId)
    ensures PoolNew(PoolDelete(pool, id)) == (id, pool)
    ensures pool.free == [] ==> PoolNew(pool) == (pool.unused, Pool([], pool.unused + 1))
  {
    assert ([id] + pool.free)[1..] == pool.free;
  }

  /** Every record ever handed out is that of a live span or waits in the pool: none is lost. */
  ghost predicate RecordsKept(h: Heap) {
    forall id: nat :: id < h.pool.unused ==> id in h.spans || id in h.pool.free
  }

  lemma PoolNewKept(h: Heap)
    requires RecordsKept(h)
    ensures var (id, pool) := PoolNew(h.pool);
            forall j: nat :: j < pool.unused && j != id ==> j in h.spans || j in pool.free
  {
    if h.pool.free != [] {
      assert h.pool.free == [h.pool.free[0]] + h.pool.free[1..];
    }
  }

  lemma NewSpanRecords(v: Variant, h: Heap, n: nat, sys: nat)
    requires RecordsKept(h) && BucketsOk(h) && PoolOk(h) && 0 < n < NPAGES
    ensures NewSpan(v, h, n, sys).Done? && RecordsKept(NewSpan(v, h, n, sys).value.0)
  {
    NewSpanExactly(v, h, n, sys);
    var i := FirstBucket(h.buckets, n);
    SmallestIs(h.buckets, n, i);
    if i < NPAGES {
      TakeRecords(v, h, n);
    } else {
      RefillBuckets(h, sys);
      RefillFirst(h, sys, n);
      PoolNewKept(h);
      assert RecordsKept(Refill(h, sys));
      TakeRecords(v, Refill(h, sys), n);
    }
  }

  lemma TakeRecords(v: Variant, h: Heap, n: nat)
    requires RecordsKept(h) && BucketsOk(h) && PoolOk(h) && 0 < n < NPAGES && FirstBucket(h.buckets, n) < NPAGES
    ensures Take(v, h, n).Done? && RecordsKept(Take(v, h, n).value.0)
  {
    FrontInBucket(h, FirstBucket(h.buckets, n));
    PoolNewKept(h);
  }

  // ---- what release leaves

  /** The elements of `s` that are not in `gone`, in order. */
  function Without(s: seq<SpanId>, gone: set<SpanId>): seq<SpanId> {
    if s == [] then [] else if s[0] in gone then Without(s[1..], gone) else [s[0]] + Without(s[1..], gone)
  }

  lemma {:induction false} WithoutNone(s: seq<SpanId>, gone: set<SpanId>)
    requires forall x :: x in s ==> x !in gone
    ensures Without(s, gone) == s
  {
    if s != [] {
      WithoutNone(s[1..], gone);
    }
  }

  lemma {:induction false} RemoveIsWithout(s: seq<SpanId>, x: SpanId)
    requires NoDup(s)
    ensures Remove(s, x) == Without(s, {x})
  {
    if s != [] {
      if s[0] == x {
        WithoutNone(s[1..], {x});
      } else {
        RemoveIsWithout(s[1..], x);
      }
    }
  }

  lemma {:induction false} WithoutTwice(s: seq<SpanId>, a: set<SpanId>, b: set<SpanId>)
    ensures Without(Without(s, a), b) == Without(s, a + b)
  {
    if s != [] {
      WithoutTwice(s[1..], a, b);
      if s[0] !in a {
        var r := Without(s[1..], a);
        assert ([s[0]] + r)[0] == s[0] && ([s[0]] + r)[1..] == r;
      }
    }
  }

  /** Spans that were there and are not any more. */
  function Gone(h: Heap, h': Heap): set<SpanId> {
    h.spans.Keys - h'.spans.Keys
  }

  /**
   Some merges into `id`: free spans left their buckets, the order of the others kept, and their
   records went to the pool; every other span is as it was.
   */
  ghost predicate Swallowed(h: Heap, h': Heap, id: SpanId) {
    && id in h.spans && id in h'.spans && h'.spans.Keys <= h.spans.Keys
    && (forall j :: j in h'.spans && j != id ==> h'.spans[j] == h.spans[j])
    && (forall i :: 0 <= i < NPAGES ==> h'.buckets[i] == Without(h.buckets[i], Gone(h, h')))
    && (forall r :: r in Gone(h, h') ==> !h.spans[r].isUse)
    && h'.tags == h.tags && (RecordsKept(h) ==> RecordsKept(h'))
  }

  lemma SwallowedNone(h: Heap, id: SpanId)
    requires id in h.spans
    ensures Swallowed(h, h, id)
  {
    forall i | 0 <= i < NPAGES ensures h.buckets[i] == Without(h.buckets[i], Gone(h, h)) {
      WithoutNone(h.buckets[i], Gone(h, h));
    }
  }

  lemma SwallowedTwice(h: Heap, m: Heap, h': Heap, id: SpanId)
    requires Swallowed(h, m, id) && Swallowed(m, h', id)
    ensures Swallowed(h, h', id)
  {
    assert Gone(h, h') == Gone(h, m) + Gone(m, h');
    forall i | 0 <= i < NPAGES ensures h'.buckets[i] == Without(h.buckets[i], Gone(h, h')) {
      WithoutTwice(h.buckets[i], Gone(h, m), Gone(m, h'));
    }
  }

  lemma AbsorbSwallows(h: Heap, id: SpanId, r: SpanId, page: nat)
    requires BucketsOk(h) && id in h.spans && r in h.spans && Unlinkable(h, id, r)
    ensures Swallowed(h, Absorb(h, id, r, page), id)
  {
    var h' := Absorb(h, id, r, page);
    assert Gone(h, h') == {r};
    forall i | 0 <= i < NPAGES ensures h'.buckets[i] == Without(h.buckets[i], {r}) {
      if i == h.spans[r].npage {
        RemoveIsWithout(h.buckets[i], r);
      } else {
        WithoutNone(h.buckets[i], {r});
      }
    }
  }

  lemma {:induction false} LeftSwallows(h: Heap, own: map<nat, SpanId>, id: SpanId)
    requires HeapInv(h, own, {id}) && EndsTagged(h, {id}) && IsOut(h, id) && OutMarked(h, id)
    ensures MergeLeft(h, id).Done? && Swallowed(h, MergeLeft(h, id).value, id)
    decreases NPAGES - h.spans[id].npage
  {
    SwallowedNone(h, id);
    var p := h.spans[id].page - 1;
    if p in h.tags {
      NeighbourIsLive(h, own, id, p);
      var r := h.tags[p];
      if !Stops(h, id, r) {
        NeighbourIsFree(h, id, r);
        var h1 := Absorb(h, id, r, h.spans[r].page);
        AbsorbSwallows(h, id, r, h.spans[r].page);
        var own1 := AbsorbOk(h, own, id, r, h.spans[r].page);
        LeftSwallows(h1, own1, id);
        SwallowedTwice(h, h1, MergeLeft(h1, id).value, id);
      }
    }
  }

  lemma RightUnfolds(h: Heap, id: SpanId, r: SpanId)
    requires id in h.spans && Get(h, h.spans[id].page + h.spans[id].npage) == Some(r) && r in h.spans
    requires !Stops(h, id, r) && Unlinkable(h, id, r)
    ensures MergeRight(h, id) == MergeRight(Absorb(h, id, r, h.spans[id].page), id)
  {
  }

  lemma {:induction false} RightSwallows(h: Heap, own: map<nat, SpanId>, id: SpanId)
    requires HeapInv(h, own, {id}) && EndsTagged(h, {id}) && IsOut(h, id) && OutMarked(h, id)
    ensures MergeRight(h, id).Done? && Swallowed(h, MergeRight(h, id).value, id)
    decreases NPAGES - h.spans[id].npage
  {
    SwallowedNone(h, id);
    var p := h.spans[id].page + h.spans[id].npage;
    if p in h.tags {
      NeighbourIsLive(h, own, id, p);
      var r := h.tags[p];
      if !Stops(h, id, r) {
        var own1 := AbsorbRight(h, own, id, r);
        AbsorbSwallows(h, id, r, h.spans[id].page);
        RightUnfolds(h, id, r);
        var h1 := Absorb(h, id, r, h.spans[id].page);
        RightSwallows(h1, own1, id);
        SwallowedTwice(h, h1, MergeRight(h1, id).value, id);
      }
    }
  }

  /** Two pages are tagged with `id`, and no other tag changes. */
  ghost predicate TaggedEnds(h: Heap, h': Heap, a: nat, b: int, id: SpanId) {
    forall p: nat :: Get(h', p) == if p == a || p == b then Some(id) else Get(h, p)
  }

  /**
   A release puts the merged span at the front of the bucket of its size, takes exactly the spans it
   swallowed, all of them free, out of theirs, tags its two ends, and changes nothing else: no other span
   or tag, and no record but those that went back to the pool.
   */
  lemma ReleaseExactly(h: Heap, own: map<nat, SpanId>, id: SpanId)
    requires HeapInv(h, own, {}) && EndsTagged(h, {}) && IsOut(h, id) && OutMarked(h, id)
    requires h.spans[id].usecount == 0 && h.spans[id].objlist == []
    ensures Release(h, id).Done?
    ensures var h' := Release(h, id).value;
            && id in h'.spans && h'.spans.Keys <= h.spans.Keys
            && (forall j :: j in h'.spans && j != id ==> h'.spans[j] == h.spans[j])
            && (forall r :: r in Gone(h, h') ==> !h.spans[r].isUse)
            && (forall i :: 0 <= i < NPAGES ==>
                  h'.buckets[i] == (if i == h'.spans[id].npage then [id] else []) + Without(h.buckets[i], Gone(h, h')))
            && TaggedEnds(h, h', h'.spans[id].page, h'.spans[id].page + h'.spans[id].npage - 1, id)
            && (RecordsKept(h) ==> RecordsKept(h'))
  {
    LeftSwallows(h, own, id);
    var own1 := MergeLeftOk(h, own, id);
    var l := MergeLeft(h, id).value;
    RightSwallows(l, own1, id);
    var m := MergeRight(l, id).value;
    SwallowedTwice(h, l, m, id);
    var m2, own2 := MergeRightOk(l, own1, id);
    ParkExactly(h, m, id);
  }

  lemma ParkExactly(h: Heap, m: Heap, id: SpanId)
    requires Swallowed(h, m, id) && 0 < m.spans[id].npage < NPAGES
    ensures Park(m, id).Done?
    ensures var h' := Park(m, id).value;
            && Gone(h, h') == Gone(h, m) && id in h'.spans && h'.spans.Keys == m.spans.Keys
            && (forall j :: j in h'.spans && j != id ==> h'.spans[j] == h.spans[j])
            && (forall i :: 0 <= i < NPAGES ==>
                  h'.buckets[i] == (if i == h'.spans[id].npage then [id] else []) + Without(h.buckets[i], Gone(h, h')))
            && TaggedEnds(h, h', h'.spans[id].page, h'.spans[id].page + h'.spans[id].npage - 1, id)
            && (RecordsKept(h) ==> RecordsKept(h'))
  {
    var h' := Park(m, id).value;
    forall i | 0 <= i < NPAGES
      ensures h'.buckets[i] == (if i == h'.spans[id].npage then [id] else []) + Without(h.buckets[i], Gone(h, m))
    {
      assert [] + m.buckets[i] == m.buckets[i];
    }
  }

  /** Over every run of requests and returns no record is lost. */
  lemma {:induction false} RunsKeepRecords(v: Variant, h: Heap, own: map<nat, SpanId>, ops: seq<HeapOp>, h': Heap)
    requires HeapGood(h, own) && RecordsKept(h) && RunsTo(v, h, ops, h')
    ensures RecordsKept(h')
    decreases |ops|
  {
    if ops != [] {
      var h1, own1;
      match ops[0] {
        case Obtain(n, sys) =>
          NewSpanRecords(v, h, n, sys);
          h1, own1 := ObtainOk(v, h, own, n, sys);
        case GiveBack(id) =>
          ReleaseExactly(h, own, id);
          h1, own1 := GiveBackOk(v, h, own, id);
      }
      RunsKeepRecords(v, h1, own1, ops[1..], h');
    }
  }
}
