/**
 The page-heap invariant and its preservation by `new_Span` and `relase_to_PageCache`.

 `own` names the live span of every obtained page. Tags are only required to be right at the two
 ends of a live span: interior tags go stale when spans are merged, and stay stale.
 */
module PageHeapInvariant {
  import opened Basics
  import opened SizeClass
  import opened PageHeap

  predicate Within(sp: Span, p: int) {
    sp.page <= p < sp.page + sp.npage
  }

  predicate Boundary(sp: Span, p: int) {
    p == sp.page || p == sp.page + sp.npage - 1
  }

  /** A record as it lies in a bucket: not in use, nothing carved, nothing out. */
  predicate Spare(sp: Span) {
    !sp.isUse && sp.usecount == 0 && sp.objlist == []
  }

  predicate InBucket(h: Heap, id: SpanId) {
    id in h.spans && 0 < h.spans[id].npage < NPAGES && id in h.buckets[h.spans[id].npage]
  }

  /** A span that has left the page heap and has not come back. */
  predicate IsOut(h: Heap, id: SpanId) {
    id in h.spans && !InBucket(h, id)
  }

  /** The obtained pages are partitioned by the live spans. */
  ghost predicate Partition(h: Heap, own: map<nat, SpanId>) {
    && own.Keys == h.pages
    && (forall id :: id in h.spans ==> 0 < h.spans[id].page && 0 < h.spans[id].npage < NPAGES)
    && (forall id, p: nat {:trigger Within(h.spans[id], p)} ::
          id in h.spans && Within(h.spans[id], p) ==> p in own && own[p] == id)
    && (forall p :: p in own ==> own[p] in h.spans && Within(h.spans[own[p]], p))
  }

  /** Bucket i holds only spare spans of i pages, each once. */
  ghost predicate BucketsOk(h: Heap) {
    && (forall i, id {:trigger id in h.buckets[i]} :: 0 <= i < NPAGES && id in h.buckets[i] ==>
          id in h.spans && h.spans[id].npage == i && Spare(h.spans[id]))
    && (forall i :: 0 <= i < NPAGES ==> NoDup(h.buckets[i]))
  }

  /** A tag at either end of a live span names that span; spans in `skip` are exempt. */
  ghost predicate TagsOk(h: Heap, own: map<nat, SpanId>, skip: set<SpanId>) {
    forall p :: p in h.tags ==>
      p in own && own[p] in h.spans
      && (own[p] !in skip && Boundary(h.spans[own[p]], p) ==> h.tags[p] == own[p])
  }

  ghost predicate PoolOk(h: Heap) {
    && NoDup(h.pool.free)
    && (forall id :: id in h.pool.free ==> id < h.pool.unused && id !in h.spans)
    && (forall id :: id in h.spans ==> id < h.pool.unused)
  }

  ghost predicate HeapInv(h: Heap, own: map<nat, SpanId>, skip: set<SpanId>) {
    Partition(h, own) && BucketsOk(h) && TagsOk(h, own, skip) && PoolOk(h)
  }

  predicate BothTagged(h: Heap, id: SpanId)
    requires id in h.spans
  {
    h.spans[id].page in h.tags && h.spans[id].page + h.spans[id].npage - 1 in h.tags
  }

  /** A span of the largest size that is out: as written, it may have left without its last tag. */
  predicate WholeOut(h: Heap, id: SpanId)
    requires id in h.spans
  {
    IsOut(h, id) && h.spans[id].npage == NPAGES - 1
  }

  predicate EndTagged(h: Heap, id: SpanId)
    requires id in h.spans
  {
    h.spans[id].page in h.tags && (BothTagged(h, id) || WholeOut(h, id))
  }

  /** Both ends of every live span are tagged; only the first where the exception above applies. */
  ghost predicate EndsTagged(h: Heap, skip: set<SpanId>) {
    forall id {:trigger EndTagged(h, id)} :: id in h.spans && id !in skip ==> EndTagged(h, id)
  }

  /** Every page of the span is tagged with it: what an address lookup needs. */
  ghost predicate FullyTagged(h: Heap, id: SpanId)
    requires id in h.spans
  {
    forall p: nat :: Within(h.spans[id], p) ==> p in h.tags && h.tags[p] == id
  }

  /** What an operation on one span leaves alone: every other span that is out, and its tags. */
  ghost predicate OthersKept(h: Heap, h': Heap, own: map<nat, SpanId>, id: SpanId) {
    && (forall j :: j != id ==> (IsOut(h', j) <==> IsOut(h, j)))
    && (forall j :: j != id && IsOut(h, j) ==> h'.spans[j] == h.spans[j])
    && (forall p :: p in own && own[p] != id && IsOut(h, own[p]) ==>
          (p in h'.tags <==> p in h.tags) && (p in h.tags ==> h'.tags[p] == h.tags[p]))
  }

  /** Being out changes for no span but `id`. */
  ghost predicate OutSame(h: Heap, h': Heap, id: SpanId) {
    forall j :: j != id ==> (IsOut(h', j) <==> IsOut(h, j))
  }

  lemma PoolNewOk(h: Heap)
    requires PoolOk(h)
    ensures var (id, pool) := PoolNew(h.pool);
            && id !in h.spans && id < pool.unused && id !in pool.free && NoDup(pool.free)
            && (forall j :: j in pool.free ==> j in h.pool.free && j < pool.unused)
            && h.pool.unused <= pool.unused
  {
    if h.pool.free != [] {
      NoDupSplit(h.pool.free, 1);
      assert h.pool.free[0] in h.pool.free[..1];
    }
  }

  lemma RefillBuckets(h: Heap, sys: nat)
    requires BucketsOk(h) && PoolOk(h)
    ensures BucketsOk(Refill(h, sys)) && PoolOk(Refill(h, sys))
    ensures forall j :: j != PoolNew(h.pool).0 ==> (IsOut(Refill(h, sys), j) <==> IsOut(h, j))
  {
    PoolNewOk(h);
    var (id, pool) := PoolNew(h.pool);
    NoDupJoin([id], h.buckets[NPAGES - 1]);
  }

  lemma RefillPartition(h: Heap, own: map<nat, SpanId>, sys: nat)
    requires Partition(h, own) && PoolOk(h)
    requires sys > 0 && PageRange(sys, NPAGES - 1) !! h.pages
    ensures Partition(Refill(h, sys), SetRange(own, sys, NPAGES - 1, PoolNew(h.pool).0))
  {
    PoolNewOk(h);
    var (id, pool) := PoolNew(h.pool);
    var h' := Refill(h, sys);
    var own' := SetRange(own, sys, NPAGES - 1, id);
    assert own'.Keys == h'.pages;
    forall j, p: nat | j in h'.spans && Within(h'.spans[j], p)
      ensures p in own' && own'[p] == j
    {
      if j != id {
        assert Within(h.spans[j], p);
      }
    }
    forall p | p in own' ensures own'[p] in h'.spans && Within(h'.spans[own'[p]], p) {
      if !(sys <= p < sys + NPAGES - 1) {
        assert p in own;
      }
    }
  }

  lemma RefillTags(h: Heap, own: map<nat, SpanId>, sys: nat, h': Heap, own': map<nat, SpanId>, id: SpanId)
    requires Partition(h, own) && PoolOk(h) && TagsOk(h, own, {}) && EndsTagged(h, {})
    requires PageRange(sys, NPAGES - 1) !! h.pages
    requires h' == Refill(h, sys) && own' == SetRange(own, sys, NPAGES - 1, id) && id == PoolNew(h.pool).0
    ensures TagsOk(h', own', {}) && EndsTagged(h', {id})
    ensures forall p :: p in own ==> p in own' && own'[p] == own[p]
  {
    PoolNewOk(h);
    forall p | p in own ensures own'[p] == own[p] {
      assert p !in PageRange(sys, NPAGES - 1);
    }
    forall j | j in h'.spans && j != id ensures EndTagged(h', j) {
      assert EndTagged(h, j);
    }
  }

  lemma RefillOk(h: Heap, own: map<nat, SpanId>, sys: nat) returns (own': map<nat, SpanId>)
    requires HeapInv(h, own, {}) && EndsTagged(h, {})
    requires sys > 0 && PageRange(sys, NPAGES - 1) !! h.pages
    ensures HeapInv(Refill(h, sys), own', {}) && EndsTagged(Refill(h, sys), {PoolNew(h.pool).0})
    ensures OthersKept(h, Refill(h, sys), own, PoolNew(h.pool).0)
    ensures forall p :: p in own ==> p in own' && own'[p] == own[p]
  {
    PoolNewOk(h);
    var id := PoolNew(h.pool).0;
    own' := SetRange(own, sys, NPAGES - 1, id);
    RefillBuckets(h, sys);
    RefillPartition(h, own, sys);
    RefillTags(h, own, sys, Refill(h, sys), own', id);
  }

  lemma TakeBuckets(v: Variant, h: Heap, n: nat)
    requires BucketsOk(h) && 0 < n < NPAGES && h.buckets[n] != []
    ensures TakeExact(v, h, n).Done?
    ensures var (h', id) := TakeExact(v, h, n).value;
            && BucketsOk(h') && id in h.spans && h.spans[id].npage == n && Spare(h.spans[id])
            && !IsOut(h, id) && IsOut(h', id)
            && (forall j :: j != id ==> (IsOut(h', j) <==> IsOut(h, j)))
  {
    var id := h.buckets[n][0];
    assert id in h.buckets[n];
    NoDupSplit(h.buckets[n], 1);
    assert h.buckets[n][..1] == [id];
  }

  ghost predicate SameTagsOutside(h: Heap, h': Heap, own: map<nat, SpanId>, id: SpanId) {
    forall p :: p in own && own[p] != id ==>
      (p in h'.tags <==> p in h.tags) && (p in h.tags ==> h'.tags[p] == h.tags[p])
  }

  /** Tagging pages of `id` with `id` disturbs no other span's tags. */
  lemma TagSelf(h: Heap, h': Heap, own: map<nat, SpanId>, id: SpanId, n: nat)
    requires Partition(h, own) && TagsOk(h, own, {})
    requires id in h.spans && 0 < n <= h.spans[id].npage
    requires h'.spans == h.spans && h'.tags == SetRange(h.tags, h.spans[id].page, n, id)
    ensures TagsOk(h', own, {}) && SameTagsOutside(h, h', own, id)
  {
    forall p: nat | Within(h.spans[id], p) ensures p in own && own[p] == id {
    }
  }

  lemma TagSelfEnds(h: Heap, h': Heap, id: SpanId, n: nat, late: set<SpanId>)
    requires EndsTagged(h, late) && late <= {id} && OutSame(h, h', id) && !IsOut(h, id) && IsOut(h', id)
    requires id in h.spans && 0 < n <= h.spans[id].npage && (late != {} ==> h.spans[id].npage == NPAGES - 1)
    requires h'.spans == h.spans && h'.tags == SetRange(h.tags, h.spans[id].page, n, id)
    ensures EndsTagged(h', {})
  {
    forall j | j in h'.spans ensures EndTagged(h', j) {
      assert j !in late ==> EndTagged(h, j);
    }
  }

  lemma TagSelfFull(h: Heap, h': Heap, own: map<nat, SpanId>, id: SpanId, n: nat)
    requires Partition(h, own) && TagsOk(h, own, {})
    requires id in h.spans && 0 < n <= h.spans[id].npage
    requires h'.spans == h.spans && h'.tags == SetRange(h.tags, h.spans[id].page, n, id)
    ensures n == h.spans[id].npage || (h.spans[id].npage <= 2 && EndTagged(h, id)) ==> FullyTagged(h', id)
  {
  }

  lemma TakeExactOk(v: Variant, h: Heap, own: map<nat, SpanId>, n: nat, late: set<SpanId>)
    requires HeapInv(h, own, {}) && EndsTagged(h, late)
    requires 0 < n < NPAGES && h.buckets[n] != [] && late <= {h.buckets[n][0]} && (late != {} ==> n == NPAGES - 1)
    ensures TakeExact(v, h, n).Done?
    ensures var (h', id) := TakeExact(v, h, n).value;
            && HeapInv(h', own, {}) && EndsTagged(h', {})
            && OthersKept(h, h', own, id) && !IsOut(h, id) && IsOut(h', id)
            && h'.spans[id].npage == n && Spare(h'.spans[id]) && h'.pages == h.pages
            && (v.tags.Intended? || (n <= 2 && late == {}) ==> FullyTagged(h', id))
  {
    TakeBuckets(v, h, n);
    var (h', id) := TakeExact(v, h, n).value;
    var tagged := if v.tags.Intended? then n else 1;
    TagSelf(h, h', own, id, tagged);
    TagSelfEnds(h, h', id, tagged, late);
    TagSelfFull(h, h', own, id, tagged);
    assert late == {} ==> EndTagged(h, id);
  }

  lemma OneBucket(h: Heap, id: SpanId, i: nat, j: nat)
    requires BucketsOk(h) && i < NPAGES && j < NPAGES && i != j && id in h.buckets[i]
    ensures id !in h.buckets[j]
  {
    assert h.spans[id].npage == i;
  }

  lemma SplitBuckets(h: Heap, i: nat, n: nat)
    requires BucketsOk(h) && PoolOk(h)
    requires 0 < n < i < NPAGES && h.buckets[i] != []
    ensures Split(h, i, n).Done?
    ensures var (h', id) := Split(h, i, n).value;
            && BucketsOk(h') && PoolOk(h') && id !in h.spans
            && (forall j :: j != id ==> (IsOut(h', j) <==> IsOut(h, j)))
            && IsOut(h', id)
  {
    PoolNewOk(h);
    var rest := h.buckets[i][0];
    assert rest in h.buckets[i];
    NoDupSplit(h.buckets[i], 1);
    assert h.buckets[i][..1] == [rest];
    OneBucket(h, rest, i, i - n);
    NoDupJoin([rest], h.buckets[i - n]);
    var (h', id) := Split(h, i, n).value;
    assert h'.buckets[i] == h.buckets[i][1..];
    assert h'.buckets[i - n] == [rest] + h.buckets[i - n];
    forall k, j | 0 <= k < NPAGES && j in h'.buckets[k]
      ensures j in h'.spans && h'.spans[j].npage == k && Spare(h'.spans[j])
    {
      assert j != rest ==> j in h.buckets[k];
    }
  }

  /** The record `rest` gives its first `n` pages to the new record `id`. */
  ghost predicate HeadCut(h: Heap, h': Heap, id: SpanId, rest: SpanId, n: nat) {
    && id !in h.spans && rest in h.spans && 0 < n < h.spans[rest].npage
    && h'.pages == h.pages
    && h'.spans == h.spans[id := FreshSpan(h.spans[rest].page, n)]
                          [rest := h.spans[rest].(page := h.spans[rest].page + n, npage := h.spans[rest].npage - n)]
  }

  lemma SplitPartition(h: Heap, own: map<nat, SpanId>, h': Heap, own': map<nat, SpanId>, id: SpanId, rest: SpanId,
      n: nat)
    requires Partition(h, own) && HeadCut(h, h', id, rest, n)
    requires own' == SetRange(own, h.spans[rest].page, n, id)
    ensures Partition(h', own')
    ensures forall p :: p in own ==> own'[p] == own[p] || own[p] == rest
  {
    var sp := h.spans[rest];
    forall p | sp.page <= p < sp.page + n ensures p in own && own[p] == rest {
      assert Within(sp, p);
    }
    assert own'.Keys == h'.pages;
    forall j, p: nat | j in h'.spans && Within(h'.spans[j], p)
      ensures p in own' && own'[p] == j
    {
      SplitWithin(h, own, h', id, rest, n, j, p);
    }
  }

  lemma SplitWithin(h: Heap, own: map<nat, SpanId>, h': Heap, id: SpanId, rest: SpanId, n: nat, j: SpanId, p: nat)
    requires Partition(h, own) && HeadCut(h, h', id, rest, n) && j in h'.spans && Within(h'.spans[j], p)
    ensures p in own && own[p] == (if j == id then rest else j)
    ensures j == id <==> h.spans[rest].page <= p < h.spans[rest].page + n
  {
    assert j == id || j == rest ==> Within(h.spans[rest], p);
    assert j != id && j != rest ==> Within(h.spans[j], p);
    assert h.spans[rest].page <= p < h.spans[rest].page + n ==> Within(h.spans[rest], p);
  }

  ghost predicate HeadTags(h: Heap, h': Heap, id: SpanId, rest: SpanId, n: nat)
    requires HeadCut(h, h', id, rest, n)
  {
    var sp := h'.spans[rest];
    h'.tags == SetRange(h.tags[sp.page := rest][sp.page + sp.npage - 1 := rest], h.spans[rest].page, n, id)
  }

  lemma SplitTags(h: Heap, own: map<nat, SpanId>, h': Heap, own': map<nat, SpanId>, id: SpanId, rest: SpanId, n: nat)
    requires Partition(h, own) && TagsOk(h, own, {})
    requires HeadCut(h, h', id, rest, n) && HeadTags(h, h', id, rest, n)
    requires own' == SetRange(own, h.spans[rest].page, n, id)
    ensures TagsOk(h', own', {})
  {
    var sp, restSp := h.spans[rest], h'.spans[rest];
    forall p: nat | Within(sp, p) ensures p in own && own[p] == rest {
    }
    assert Within(sp, restSp.page) && Within(sp, restSp.page + restSp.npage - 1);
    forall p | p in h'.tags
      ensures p in own' && own'[p] in h'.spans && (Boundary(h'.spans[own'[p]], p) ==> h'.tags[p] == own'[p])
    {
      if Within(sp, p) {
      } else {
        assert p in h.tags && h'.tags[p] == h.tags[p] && own'[p] == own[p];
        assert own[p] != rest && own[p] != id;
      }
    }
  }

  lemma SplitSame(h: Heap, own: map<nat, SpanId>, h': Heap, id: SpanId, rest: SpanId, n: nat)
    requires Partition(h, own) && HeadCut(h, h', id, rest, n) && HeadTags(h, h', id, rest, n)
    ensures SameTagsOutside(h, h', own, rest) && FullyTagged(h', id)
  {
    var sp, restSp := h.spans[rest], h'.spans[rest];
    forall p: nat | Within(sp, p) ensures p in own && own[p] == rest {
    }
    assert Within(sp, restSp.page) && Within(sp, restSp.page + restSp.npage - 1);
  }

  lemma SplitEnds(h: Heap, late: set<SpanId>, h': Heap, id: SpanId, rest: SpanId, n: nat)
    requires EndsTagged(h, late) && late <= {rest} && OutSame(h, h', id)
    requires HeadCut(h, h', id, rest, n) && HeadTags(h, h', id, rest, n)
    ensures EndsTagged(h', {})
  {
    forall j | j in h'.spans ensures EndTagged(h', j) {
      if j != id && j != rest {
        assert EndTagged(h, j);
      }
    }
  }

  lemma SplitOk(h: Heap, own: map<nat, SpanId>, i: nat, n: nat, late: set<SpanId>)
    returns (own': map<nat, SpanId>)
    requires HeapInv(h, own, {}) && EndsTagged(h, late)
    requires 0 < n < i < NPAGES && h.buckets[i] != [] && late <= {h.buckets[i][0]}
    ensures Split(h, i, n).Done?
    ensures var (h', id) := Split(h, i, n).value;
            && HeapInv(h', own', {}) && EndsTagged(h', {})
            && OthersKept(h, h', own, id) && !IsOut(h, id) && IsOut(h', id)
            && h'.spans[id].npage == n && Spare(h'.spans[id]) && h'.pages == h.pages
            && FullyTagged(h', id)
            && (forall p :: p in own && IsOut(h, own[p]) ==> p in own' && own'[p] == own[p])
  {
    SplitBuckets(h, i, n);
    var (h', id) := Split(h, i, n).value;
    var rest := h.buckets[i][0];
    assert rest in h.buckets[i];
    own' := SetRange(own, h.spans[rest].page, n, id);
    SplitPartition(h, own, h', own', id, rest, n);
    SplitTags(h, own, h', own', id, rest, n);
    SplitSame(h, own, h', id, rest, n);
    SplitEnds(h, late, h', id, rest, n);
  }

  /** Tagging exact-bucket spans at their first page only is enough for spans of one or two pages. */
  predicate TagSafe(v: Variant, n: nat) {
    v.tags.Intended? || n <= 2
  }

  /** What every `new_Span` of `n` pages promises. */
  ghost predicate NewSpanPost(v: Variant, h: Heap, own: map<nat, SpanId>, n: nat, h': Heap, own': map<nat, SpanId>,
      id: SpanId) {
    && HeapInv(h', own', {}) && EndsTagged(h', {})
    && OthersKept(h, h', own, id) && !IsOut(h, id) && IsOut(h', id)
    && h'.spans[id].npage == n && Spare(h'.spans[id])
    && h.pages <= h'.pages
    && (TagSafe(v, n) ==> FullyTagged(h', id))
    && (forall p :: p in own && IsOut(h, own[p]) ==> p in own' && own'[p] == own[p])
  }

  lemma TakeOk(v: Variant, h: Heap, own: map<nat, SpanId>, n: nat, late: set<SpanId>)
    returns (own': map<nat, SpanId>)
    requires HeapInv(h, own, {}) && EndsTagged(h, late)
    requires 0 < n < NPAGES && FirstBucket(h.buckets, n) < NPAGES
    requires late <= {h.buckets[FirstBucket(h.buckets, n)][0]}
    requires late == {} || FirstBucket(h.buckets, n) == NPAGES - 1
    ensures Take(v, h, n).Done?
    ensures NewSpanPost(v, h, own, n, Take(v, h, n).value.0, own', Take(v, h, n).value.1)
  {
    var i := FirstBucket(h.buckets, n);
    if i == n {
      TakeExactOk(v, h, own, n, late);
      own' := own;
    } else {
      own' := SplitOk(h, own, i, n, late);
    }
  }

  lemma RefillThenKept(h: Heap, r: Heap, h': Heap, own: map<nat, SpanId>, own1: map<nat, SpanId>, big: SpanId,
      id: SpanId)
    requires OthersKept(h, r, own, big) && OthersKept(r, h', own1, id)
    requires !IsOut(h, big) && !IsOut(r, big) && !IsOut(r, id)
    requires forall p :: p in own ==> p in own1 && own1[p] == own[p]
    ensures OthersKept(h, h', own, id) && !IsOut(h, id)
  {
    forall j | j != id ensures IsOut(h', j) <==> IsOut(h, j) {
      assert IsOut(h', j) <==> IsOut(r, j);
    }
    forall j | j != id && IsOut(h, j) ensures h'.spans[j] == h.spans[j] {
      assert IsOut(r, j) && r.spans[j] == h.spans[j];
    }
  }

  lemma RefillFirst(h: Heap, sys: nat, n: nat)
    requires BucketsOk(h) && PoolOk(h)
    requires 0 < n < NPAGES && FirstBucket(h.buckets, n) == NPAGES
    ensures var r, big := Refill(h, sys), PoolNew(h.pool).0;
            && FirstBucket(r.buckets, n) == NPAGES - 1 && r.buckets[NPAGES - 1][0] == big
            && !IsOut(r, big) && big !in h.spans && h.pages <= r.pages
  {
    PoolNewOk(h);
    var r := Refill(h, sys);
    assert r.buckets[NPAGES - 1] != [];
  }

  /**
   `new_Span` keeps the page heap right, takes no page from any span that is out, and returns a
   span of exactly the requested length; every page of it is tagged with it when that is safe.
   */
  lemma NewSpanOk(v: Variant, h: Heap, own: map<nat, SpanId>, n: nat, sys: nat)
    returns (own': map<nat, SpanId>)
    requires HeapInv(h, own, {}) && EndsTagged(h, {})
    requires 0 < n < NPAGES
    requires sys > 0 && PageRange(sys, NPAGES - 1) !! h.pages
    ensures NewSpan(v, h, n, sys).Done?
    ensures NewSpanPost(v, h, own, n, NewSpan(v, h, n, sys).value.0, own', NewSpan(v, h, n, sys).value.1)
  {
    if FirstBucket(h.buckets, n) < NPAGES {
      own' := TakeOk(v, h, own, n, {});
    } else {
      var big, r := PoolNew(h.pool).0, Refill(h, sys);
      RefillFirst(h, sys, n);
      var own1 := RefillOk(h, own, sys);
      own' := TakeOk(v, r, own1, n, {big});
      var (h', id) := Take(v, r, n).value;
      RefillThenKept(h, r, h', own, own1, big, id);
      forall p | p in own && IsOut(h, own[p]) ensures p in own' && own'[p] == own[p] {
        assert own1[p] == own[p] && IsOut(r, own[p]);
      }
    }
  }

  /** Every span that is out, other than `id`, is marked in use: what keeps merging off it. */
  ghost predicate OutMarked(h: Heap, id: SpanId) {
    forall j :: j != id && IsOut(h, j) ==> h.spans[j].isUse
  }

  predicate Adjacent(a: Span, b: Span) {
    a.page + a.npage == b.page || b.page + b.npage == a.page
  }

  /**
   A coalescing lookup finds nothing, or a live span adjacent to `id`: never a dead record and
   never a record reused elsewhere.
   */
  lemma NeighbourIsLive(h: Heap, own: map<nat, SpanId>, id: SpanId, p: nat)
    requires Partition(h, own) && TagsOk(h, own, {id}) && id in h.spans
    requires p == h.spans[id].page - 1 || p == h.spans[id].page + h.spans[id].npage
    requires p in h.tags
    ensures var r := h.tags[p];
            r in h.spans && r != id && Adjacent(h.spans[r], h.spans[id]) && own[p] == r && Within(h.spans[r], p)
  {
    var sp, r := h.spans[id], own[p];
    assert Within(h.spans[r], p);
    assert r != id;
    assert Within(sp, sp.page) && Within(sp, sp.page + sp.npage - 1);
    assert !Within(h.spans[r], sp.page) && !Within(h.spans[r], sp.page + sp.npage - 1);
  }

  lemma NeighbourIsFree(h: Heap, id: SpanId, r: SpanId)
    requires BucketsOk(h) && OutMarked(h, id)
    requires id in h.spans && r in h.spans && r != id && !Stops(h, id, r)
    requires 0 < h.spans[r].npage
    ensures Unlinkable(h, id, r)
  {
    assert !IsOut(h, r);
  }

  lemma AbsorbBuckets(h: Heap, id: SpanId, r: SpanId, page: nat)
    requires BucketsOk(h) && PoolOk(h) && IsOut(h, id) && r in h.spans && Unlinkable(h, id, r)
    requires 0 < h.spans[id].npage && h.spans[id].npage + h.spans[r].npage < NPAGES
    ensures var h' := Absorb(h, id, r, page);
            && BucketsOk(h') && PoolOk(h') && IsOut(h', id) && !IsOut(h, r)
            && (forall j :: j != id ==> (IsOut(h', j) <==> IsOut(h, j)))
            && (forall j :: j != id && j in h'.spans ==> j in h.spans && h'.spans[j] == h.spans[j])
  {
    var k := h.spans[r].npage;
    var h' := Absorb(h, id, r, page);
    RemoveElems(h.buckets[k], r);
    OutInNoBucket(h, id);
    NoDupJoin([r], h.pool.free);
    assert h'.buckets[k] == Remove(h.buckets[k], r);
    forall i, j | 0 <= i < NPAGES && j in h'.buckets[i]
      ensures j in h'.spans && h'.spans[j].npage == i && Spare(h'.spans[j])
    {
      assert j in h.buckets[i];
      assert h.spans[j].npage == i;
    }
  }

  lemma OutInNoBucket(h: Heap, id: SpanId)
    requires BucketsOk(h) && IsOut(h, id) && 0 < h.spans[id].npage
    ensures forall i :: 0 <= i < NPAGES ==> id !in h.buckets[i]
  {
    var k := h.spans[id].npage;
    assert !(k < NPAGES && id in h.buckets[k]);
    forall i | 0 <= i < NPAGES && id in h.buckets[i] ensures false {
    }
  }

  /** `page` is where two adjacent spans, taken together, begin. */
  predicate Reaches(a: Span, b: Span, page: nat) {
    || (a.page + a.npage == b.page && page == a.page)
    || (b.page + b.npage == a.page && page == b.page)
  }

  /** `id` now reaches over its own pages and those of `r`, whose record is gone. */
  ghost predicate Joined(h: Heap, h': Heap, id: SpanId, r: SpanId) {
    && id in h.spans && r in h.spans && id != r
    && h'.spans.Keys == h.spans.Keys - {r}
    && (forall j :: j in h'.spans && j != id ==> h'.spans[j] == h.spans[j])
    && h'.spans[id].npage == h.spans[id].npage + h.spans[r].npage
    && Reaches(h.spans[id], h.spans[r], h'.spans[id].page)
    && h'.pages == h.pages
  }

  lemma AbsorbPartition(h: Heap, own: map<nat, SpanId>, h': Heap, own': map<nat, SpanId>, id: SpanId, r: SpanId)
    requires Partition(h, own) && Joined(h, h', id, r)
    requires h'.spans[id].npage < NPAGES
    requires own' == SetRange(own, h.spans[r].page, h.spans[r].npage, id)
    ensures Partition(h', own')
    ensures forall p :: p in own ==> own'[p] == if own[p] == r then id else own[p]
  {
    forall p | p in own ensures own'[p] == if own[p] == r then id else own[p] {
      assert own[p] == r <==> Within(h.spans[r], p);
    }
    forall p | h.spans[r].page <= p < h.spans[r].page + h.spans[r].npage ensures p in own {
      assert Within(h.spans[r], p);
    }
    assert own'.Keys == h'.pages;
    forall j, p: nat | j in h'.spans && Within(h'.spans[j], p)
      ensures p in own' && own'[p] == j
    {
      assert j == id ==> Within(h.spans[id], p) || Within(h.spans[r], p);
      assert j != id ==> Within(h.spans[j], p);
    }
  }

  lemma AbsorbTags(h: Heap, own: map<nat, SpanId>, h': Heap, own': map<nat, SpanId>, id: SpanId, r: SpanId)
    requires Partition(h, own) && TagsOk(h, own, {id}) && EndsTagged(h, {id})
    requires Joined(h, h', id, r) && h'.tags == h.tags && OutSame(h, h', id)
    requires own'.Keys == own.Keys && forall p :: p in own ==> own'[p] == if own[p] == r then id else own[p]
    ensures TagsOk(h', own', {id}) && EndsTagged(h', {id})
  {
    forall j | j in h'.spans && j != id ensures EndTagged(h', j) {
      assert EndTagged(h, j);
    }
  }

  /** One merge step: the page set is conserved and nothing else that is out is touched. */
  lemma AbsorbOk(h: Heap, own: map<nat, SpanId>, id: SpanId, r: SpanId, page: nat)
    returns (own': map<nat, SpanId>)
    requires HeapInv(h, own, {id}) && EndsTagged(h, {id}) && IsOut(h, id) && OutMarked(h, id)
    requires r in h.spans && Unlinkable(h, id, r) && h.spans[id].npage + h.spans[r].npage < NPAGES
    requires Reaches(h.spans[id], h.spans[r], page)
    ensures var h' := Absorb(h, id, r, page);
            && HeapInv(h', own', {id}) && EndsTagged(h', {id}) && IsOut(h', id) && OutMarked(h', id)
            && OthersKept(h, h', own, id) && h'.pages == h.pages
    ensures forall p :: p in own && IsOut(h, own[p]) ==> p in own' && own'[p] == own[p]
  {
    var h' := Absorb(h, id, r, page);
    AbsorbBuckets(h, id, r, page);
    own' := SetRange(own, h.spans[r].page, h.spans[r].npage, id);
    AbsorbPartition(h, own, h', own', id, r);
    assert own'.Keys == own.Keys;
    AbsorbTags(h, own, h', own', id, r);
  }

  /** What a run of merge steps on `id` promises. */
  ghost predicate MergePost(h: Heap, own: map<nat, SpanId>, id: SpanId, h': Heap, own': map<nat, SpanId>) {
    && HeapInv(h', own', {id}) && EndsTagged(h', {id}) && IsOut(h, id) && IsOut(h', id) && OutMarked(h', id)
    && OthersKept(h, h', own, id) && h'.pages == h.pages && h'.tags == h.tags
    && (forall p :: p in own && IsOut(h, own[p]) ==> p in own' && own'[p] == own[p])
    && h'.spans[id].page <= h.spans[id].page
    && h.spans[id].page + h.spans[id].npage <= h'.spans[id].page + h'.spans[id].npage
    && h'.spans[id] == h.spans[id].(page := h'.spans[id].page, npage := h'.spans[id].npage)
  }

  lemma MergeTrans(h: Heap, own: map<nat, SpanId>, id: SpanId, h1: Heap, own1: map<nat, SpanId>, h2: Heap,
      own2: map<nat, SpanId>)
    requires MergePost(h, own, id, h1, own1) && MergePost(h1, own1, id, h2, own2)
    ensures MergePost(h, own, id, h2, own2)
  {
    forall p | p in own && IsOut(h, own[p]) ensures p in own2 && own2[p] == own[p] {
      assert own1[p] == own[p] && IsOut(h1, own[p]);
    }
    forall j | j != id ensures IsOut(h2, j) <==> IsOut(h, j) {
      assert IsOut(h1, j) <==> IsOut(h, j);
    }
  }

  /** What keeps two adjacent spans apart: one is in use, or together they have 129 pages or more. */
  predicate TooMuch(neighbour: Span, sp: Span) {
    neighbour.isUse || neighbour.npage + sp.npage >= 129
  }

  /** The left loop has nothing more to take: no tag, in use, or too large together. */
  predicate LeftDone(h: Heap, id: SpanId)
    requires id in h.spans
  {
    match Get(h, h.spans[id].page - 1)
    case None => true
    case Some(r) => r in h.spans && r != id && TooMuch(h.spans[r], h.spans[id])
  }

  predicate RightDone(h: Heap, id: SpanId)
    requires id in h.spans
  {
    match Get(h, h.spans[id].page + h.spans[id].npage)
    case None => true
    case Some(r) => r in h.spans && r != id && TooMuch(h.spans[r], h.spans[id])
  }

  lemma {:induction false} MergeLeftOk(h: Heap, own: map<nat, SpanId>, id: SpanId) returns (own': map<nat, SpanId>)
    requires HeapInv(h, own, {id}) && EndsTagged(h, {id}) && IsOut(h, id) && OutMarked(h, id)
    ensures MergeLeft(h, id).Done? && MergePost(h, own, id, MergeLeft(h, id).value, own')
    ensures LeftDone(MergeLeft(h, id).value, id)
    decreases NPAGES - h.spans[id].npage
  {
    own' := own;
    var p := h.spans[id].page - 1;
    if p in h.tags {
      NeighbourIsLive(h, own, id, p);
      var r := h.tags[p];
      if !Stops(h, id, r) {
        NeighbourIsFree(h, id, r);
        var h1 := Absorb(h, id, r, h.spans[r].page);
        var own1 := AbsorbOk(h, own, id, r, h.spans[r].page);
        own' := MergeLeftOk(h1, own1, id);
        MergeTrans(h, own, id, h1, own1, MergeLeft(h1, id).value, own');
      }
    }
  }

  /** Growing to the right leaves the left loop with nothing to take. */
  lemma LeftStaysDone(h: Heap, own: map<nat, SpanId>, id: SpanId, r: SpanId, h': Heap)
    requires Partition(h, own) && TagsOk(h, own, {id}) && IsOut(h, id) && LeftDone(h, id)
    requires Joined(h, h', id, r) && h'.tags == h.tags && h'.spans[id].page == h.spans[id].page
    requires h.spans[r].page > h.spans[id].page
    ensures LeftDone(h', id)
  {
    var p := h.spans[id].page - 1;
    if p in h.tags {
      NeighbourIsLive(h, own, id, p);
      assert Within(h.spans[h.tags[p]], p);
    }
  }

  lemma AbsorbRight(h: Heap, own: map<nat, SpanId>, id: SpanId, r: SpanId) returns (own1: map<nat, SpanId>)
    requires HeapInv(h, own, {id}) && EndsTagged(h, {id}) && IsOut(h, id) && OutMarked(h, id)
    requires Get(h, h.spans[id].page + h.spans[id].npage) == Some(r) && r in h.spans && !Stops(h, id, r)
    ensures Unlinkable(h, id, r) && h.spans[id].page + h.spans[id].npage == h.spans[r].page
    ensures MergePost(h, own, id, Absorb(h, id, r, h.spans[id].page), own1)
  {
    var p := h.spans[id].page + h.spans[id].npage;
    NeighbourIsLive(h, own, id, p);
    assert Within(h.spans[r], p);
    NeighbourIsFree(h, id, r);
    own1 := AbsorbOk(h, own, id, r, h.spans[id].page);
  }

  lemma MergeRightStep(h: Heap, own: map<nat, SpanId>, id: SpanId, r: SpanId)
    requires Partition(h, own) && TagsOk(h, own, {id}) && IsOut(h, id) && LeftDone(h, id)
    requires Get(h, h.spans[id].page + h.spans[id].npage) == Some(r) && r in h.spans && !Stops(h, id, r)
    requires Unlinkable(h, id, r) && h.spans[id].page + h.spans[id].npage == h.spans[r].page
    ensures MergeRight(h, id) == MergeRight(Absorb(h, id, r, h.spans[id].page), id)
    ensures LeftDone(Absorb(h, id, r, h.spans[id].page), id)
  {
    LeftStaysDone(h, own, id, r, Absorb(h, id, r, h.spans[id].page));
  }

  lemma {:induction false} MergeRightOk(h: Heap, own: map<nat, SpanId>, id: SpanId)
    returns (m: Heap, own': map<nat, SpanId>)
    requires HeapInv(h, own, {id}) && EndsTagged(h, {id}) && IsOut(h, id) && OutMarked(h, id) && LeftDone(h, id)
    ensures MergeRight(h, id) == Done(m) && MergePost(h, own, id, m, own')
    ensures LeftDone(m, id) && RightDone(m, id)
    decreases NPAGES - h.spans[id].npage
  {
    m, own' := h, own;
    var p := h.spans[id].page + h.spans[id].npage;
    if p in h.tags {
      NeighbourIsLive(h, own, id, p);
      var r := h.tags[p];
      if !Stops(h, id, r) {
        var own1 := AbsorbRight(h, own, id, r);
        MergeRightStep(h, own, id, r);
        var h1 := Absorb(h, id, r, h.spans[id].page);
        m, own' := MergeRightOk(h1, own1, id);
        MergeTrans(h, own, id, h1, own1, m, own');
      }
    }
  }

  lemma ParkBuckets(h: Heap, id: SpanId)
    requires BucketsOk(h) && PoolOk(h) && IsOut(h, id) && 0 < h.spans[id].npage < NPAGES
    requires h.spans[id].usecount == 0 && h.spans[id].objlist == []
    ensures Park(h, id).Done?
    ensures var h' := Park(h, id).value;
            && BucketsOk(h') && PoolOk(h') && InBucket(h', id)
            && (forall j :: j != id ==> (IsOut(h', j) <==> IsOut(h, j)))
            && (forall j :: j != id && j in h.spans ==> h'.spans[j] == h.spans[j])
  {
    OutInNoBucket(h, id);
    NoDupJoin([id], h.buckets[h.spans[id].npage]);
  }

  lemma ParkPartition(h: Heap, own: map<nat, SpanId>, id: SpanId, h': Heap)
    requires Partition(h, own) && id in h.spans && Park(h, id) == Done(h')
    ensures Partition(h', own)
  {
    forall j, p: nat | j in h'.spans && Within(h'.spans[j], p)
      ensures p in own && own[p] == j
    {
      assert Within(h.spans[j], p);
    }
  }

  lemma ParkTags(h: Heap, own: map<nat, SpanId>, id: SpanId, h': Heap)
    requires Partition(h, own) && TagsOk(h, own, {id}) && id in h.spans && Park(h, id) == Done(h')
    ensures TagsOk(h', own, {}) && SameTagsOutside(h, h', own, id)
  {
    var sp := h.spans[id];
    assert Within(sp, sp.page) && Within(sp, sp.page + sp.npage - 1);
  }

  lemma ParkEnds(h: Heap, id: SpanId, h': Heap)
    requires EndsTagged(h, {id}) && Park(h, id) == Done(h')
    ensures EndsTagged(h', {})
  {
    forall j | j in h'.spans ensures EndTagged(h', j) {
      assert j != id ==> EndTagged(h, j);
    }
  }

  /** Linking the merged span changes neither neighbour's verdict. */
  lemma ParkMaximal(h: Heap, own: map<nat, SpanId>, id: SpanId, h': Heap)
    requires Partition(h, own) && TagsOk(h, own, {id}) && id in h.spans
    requires LeftDone(h, id) && RightDone(h, id) && Park(h, id) == Done(h')
    ensures LeftDone(h', id) && RightDone(h', id)
  {
  }

  /**
   Every live span beside `id`, found by its pages and not by tags, is in use or would bring the two
   together to 129 pages or more.
   */
  ghost predicate Maximal(h: Heap, id: SpanId)
    requires id in h.spans
  {
    forall r {:trigger Adjacent(h.spans[id], h.spans[r])} ::
      r in h.spans && r != id && Adjacent(h.spans[id], h.spans[r]) ==>
        TooMuch(h.spans[r], h.spans[id])
  }

  /** The tag on the page of a live neighbour next to `id` names it, so the loops did look at it. */
  lemma DoneIsMaximal(h: Heap, own: map<nat, SpanId>, id: SpanId)
    requires HeapInv(h, own, {}) && EndsTagged(h, {}) && id in h.spans && LeftDone(h, id) && RightDone(h, id)
    ensures Maximal(h, id)
  {
    forall r | r in h.spans && r != id && Adjacent(h.spans[id], h.spans[r])
      ensures TooMuch(h.spans[r], h.spans[id])
    {
      NeighbourSeen(h, own, id, r);
    }
  }

  lemma NeighbourSeen(h: Heap, own: map<nat, SpanId>, id: SpanId, r: SpanId)
    requires Partition(h, own) && TagsOk(h, own, {}) && EndsTagged(h, {})
    requires id in h.spans && LeftDone(h, id) && RightDone(h, id)
    requires r in h.spans && r != id && Adjacent(h.spans[id], h.spans[r])
    ensures TooMuch(h.spans[r], h.spans[id])
  {
    var sp := h.spans[r];
    assert EndTagged(h, r) && Within(sp, sp.page) && Within(sp, sp.page + sp.npage - 1);
  }

  /** What a release of `id` promises. */
  ghost predicate ReleasePost(h: Heap, own: map<nat, SpanId>, id: SpanId, h': Heap, own': map<nat, SpanId>) {
    && HeapInv(h', own', {}) && EndsTagged(h', {})
    && IsOut(h, id) && InBucket(h', id) && OthersKept(h, h', own, id)
    && h'.pages == h.pages
    && h'.spans[id].page <= h.spans[id].page
    && h.spans[id].page + h.spans[id].npage <= h'.spans[id].page + h'.spans[id].npage
    && LeftDone(h', id) && RightDone(h', id) && Maximal(h', id)
    && (forall p :: p in own && own[p] != id && IsOut(h, own[p]) ==> p in own' && own'[p] == own[p])
  }

  /**
   `relase_to_PageCache` touches no dead record, conserves the page set, leaves every other span
   that is out as it was, and ends with a free span that neither loop could extend further.
   */
  lemma ReleaseOk(h: Heap, own: map<nat, SpanId>, id: SpanId) returns (own': map<nat, SpanId>)
    requires HeapInv(h, own, {}) && EndsTagged(h, {}) && IsOut(h, id) && OutMarked(h, id)
    requires h.spans[id].usecount == 0 && h.spans[id].objlist == []
    ensures Release(h, id).Done? && ReleasePost(h, own, id, Release(h, id).value, own')
  {
    var own1 := MergeLeftOk(h, own, id);
    var l := MergeLeft(h, id).value;
    var m;
    m, own' := MergeRightOk(l, own1, id);
    MergeTrans(h, own, id, l, own1, m, own');
    ParkBuckets(m, id);
    var h' := Park(m, id).value;
    ParkPartition(m, own', id, h');
    ParkTags(m, own', id, h');
    ParkEnds(m, id, h');
    ParkMaximal(m, own', id, h');
    ParkKept(h, own, id, m, own', h');
    DoneIsMaximal(h', own', id);
  }

  lemma ParkKept(h: Heap, own: map<nat, SpanId>, id: SpanId, m: Heap, own': map<nat, SpanId>, h': Heap)
    requires OthersKept(h, m, own, id) && SameTagsOutside(m, h', own', id)
    requires forall p :: p in own && IsOut(h, own[p]) ==> p in own' && own'[p] == own[p]
    requires forall j :: j != id ==> (IsOut(h', j) <==> IsOut(m, j))
    requires forall j :: j != id && j in m.spans ==> j in h'.spans && h'.spans[j] == m.spans[j]
    ensures OthersKept(h, h', own, id)
  {
    forall j | j != id ensures IsOut(h', j) <==> IsOut(h, j) {
      assert IsOut(h', j) <==> IsOut(m, j);
    }
  }

  /** Changing what a span outside the page heap records about its objects. */
  ghost predicate Rewritten(h: Heap, h': Heap, id: SpanId) {
    && IsOut(h, id) && id in h'.spans
    && h' == h.(spans := h.spans[id := h'.spans[id]])
    && h'.spans[id].page == h.spans[id].page && h'.spans[id].npage == h.spans[id].npage
  }

  lemma RewriteBuckets(h: Heap, h': Heap, id: SpanId)
    requires BucketsOk(h) && PoolOk(h) && Rewritten(h, h', id) && 0 < h.spans[id].npage
    ensures BucketsOk(h') && PoolOk(h')
    ensures forall j :: IsOut(h', j) <==> IsOut(h, j)
  {
    OutInNoBucket(h, id);
    forall i, j | 0 <= i < NPAGES && j in h'.buckets[i]
      ensures j in h'.spans && h'.spans[j].npage == i && Spare(h'.spans[j])
    {
      assert j in h.buckets[i] && j != id;
    }
  }

  lemma RewritePartition(h: Heap, h': Heap, own: map<nat, SpanId>, id: SpanId)
    requires Partition(h, own) && TagsOk(h, own, {}) && Rewritten(h, h', id)
    ensures Partition(h', own) && TagsOk(h', own, {})
  {
    forall j, p: nat | j in h'.spans && Within(h'.spans[j], p)
      ensures p in own && own[p] == j
    {
      assert Within(h.spans[j], p);
    }
  }

  lemma RewriteEnds(h: Heap, h': Heap, id: SpanId)
    requires EndsTagged(h, {}) && Rewritten(h, h', id)
    ensures EndsTagged(h', {})
  {
    forall j | j in h'.spans ensures EndTagged(h', j) {
      assert EndTagged(h, j);
    }
  }

  lemma RewriteTagged(h: Heap, h': Heap, id: SpanId, j: SpanId)
    requires Rewritten(h, h', id) && j in h.spans && FullyTagged(h, j)
    ensures FullyTagged(h', j)
  {
    forall p: nat | Within(h'.spans[j], p) ensures p in h'.tags && h'.tags[p] == j {
      assert Within(h.spans[j], p);
    }
  }
}
