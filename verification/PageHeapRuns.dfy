/** The page heap over whole runs, and what the text of the exact-bucket path gets wrong. */
module PageHeapRuns {
  import opened Basics
  import opened SizeClass
  import opened PageHeap
  import opened PageHeapInvariant

  /** A caller obtains a span and marks it in use, or gives one back. */
  datatype HeapOp = Obtain(n: nat, sys: nat) | GiveBack(id: SpanId)

  /** Requests are of 1 to 128 pages. What comes back is out and has no objects. */
  ghost predicate Legal(h: Heap, op: HeapOp) {
    match op
    case Obtain(n, sys) =>
      0 < n < NPAGES && sys > 0 && PageRange(sys, NPAGES - 1) !! h.pages
    case GiveBack(id) => IsOut(h, id) && h.spans[id].usecount == 0 && h.spans[id].objlist == []
  }

  function Mark(h: Heap, id: SpanId): Heap
    requires id in h.spans
  {
    h.(spans := h.spans[id := h.spans[id].(isUse := true)])
  }

  function Apply(v: Variant, h: Heap, op: HeapOp): Outcome<Heap> {
    match op
    case Obtain(n, sys) =>
      if !(0 < n < NPAGES) then Fault
      else (match NewSpan(v, h, n, sys)
            case Fault => Fault
            case Done((h', id)) => if id in h'.spans then Done(Mark(h', id)) else Fault)
    case GiveBack(id) => if id in h.spans then Release(h, id) else Fault
  }

  /** The heap after legal operations, one after the other. */
  ghost predicate RunsTo(v: Variant, h: Heap, ops: seq<HeapOp>, h': Heap)
    decreases |ops|
  {
    if ops == [] then h' == h
    else Legal(h, ops[0])
         && (match Apply(v, h, ops[0])
             case Fault => false
             case Done(h1) => RunsTo(v, h1, ops[1..], h'))
  }

  ghost predicate OutTagged(h: Heap) {
    forall id {:trigger FullyTagged(h, id)} :: IsOut(h, id) ==> FullyTagged(h, id)
  }

  ghost predicate OutUsed(h: Heap) {
    forall id :: IsOut(h, id) ==> h.spans[id].isUse
  }

  /** The partition, the buckets and the boundary tags; every span that is out is marked in use. */
  ghost predicate HeapGood(h: Heap, own: map<nat, SpanId>) {
    HeapInv(h, own, {}) && EndsTagged(h, {}) && OutUsed(h)
  }

  /** Requests small enough, for this variant, for their spans to be tagged completely. */
  predicate AllSafe(v: Variant, ops: seq<HeapOp>) {
    forall i :: 0 <= i < |ops| && ops[i].Obtain? ==> TagSafe(v, ops[i].n)
  }

  lemma MarkOk(h: Heap, own: map<nat, SpanId>, id: SpanId)
    requires HeapInv(h, own, {}) && EndsTagged(h, {}) && IsOut(h, id)
    ensures HeapInv(Mark(h, id), own, {}) && EndsTagged(Mark(h, id), {})
    ensures Rewritten(h, Mark(h, id), id) && forall j :: IsOut(Mark(h, id), j) <==> IsOut(h, j)
  {
    RewriteBuckets(h, Mark(h, id), id);
    RewritePartition(h, Mark(h, id), own, id);
    RewriteEnds(h, Mark(h, id), id);
  }

  /** Tags of spans that stay out survive any operation on another span. */
  lemma TagsSurvive(h: Heap, h': Heap, own: map<nat, SpanId>, id: SpanId)
    requires Partition(h, own) && OthersKept(h, h', own, id) && OutTagged(h)
    ensures forall j :: j != id && IsOut(h', j) ==> FullyTagged(h', j)
  {
    forall j | j != id && IsOut(h', j) ensures FullyTagged(h', j) {
      assert IsOut(h, j) && FullyTagged(h, j);
      forall p: nat | Within(h'.spans[j], p) ensures p in h'.tags && h'.tags[p] == j {
        assert Within(h.spans[j], p) && own[p] == j;
      }
    }
  }

  lemma MarkTagged(h: Heap, id: SpanId)
    requires IsOut(h, id) && (forall j :: IsOut(h, j) ==> FullyTagged(h, j))
    requires Rewritten(h, Mark(h, id), id) && forall j :: IsOut(Mark(h, id), j) <==> IsOut(h, j)
    ensures OutTagged(Mark(h, id))
  {
    forall j | IsOut(Mark(h, id), j) ensures FullyTagged(Mark(h, id), j) {
      RewriteTagged(h, Mark(h, id), id, j);
    }
  }

  lemma ObtainOk(v: Variant, h: Heap, own: map<nat, SpanId>, n: nat, sys: nat)
      returns (h': Heap, own': map<nat, SpanId>)
    requires HeapGood(h, own) && Legal(h, Obtain(n, sys))
    ensures Apply(v, h, Obtain(n, sys)) == Done(h') && HeapGood(h', own')
    ensures OutTagged(h) && TagSafe(v, n) ==> OutTagged(h')
  {
    own' := NewSpanOk(v, h, own, n, sys);
    var (h1, id) := NewSpan(v, h, n, sys).value;
    MarkOk(h1, own', id);
    h' := Mark(h1, id);
    if OutTagged(h) && TagSafe(v, n) {
      TagsSurvive(h, h1, own, id);
      MarkTagged(h1, id);
    }
  }

  lemma GiveBackOk(v: Variant, h: Heap, own: map<nat, SpanId>, id: SpanId) returns (h': Heap, own': map<nat, SpanId>)
    requires HeapGood(h, own) && Legal(h, GiveBack(id))
    ensures Apply(v, h, GiveBack(id)) == Done(h') && HeapGood(h', own')
    ensures OutTagged(h) ==> OutTagged(h')
    ensures h'.pages == h.pages
  {
    own' := ReleaseOk(h, own, id);
    h' := Release(h, id).value;
    if OutTagged(h) {
      TagsSurvive(h, h', own, id);
    }
  }

  /**
   The first and the last page of every live span map to it. The one exception, as written, is the
   last page of a span of 128 pages that is out.
   */
  lemma EndsMap(h: Heap, own: map<nat, SpanId>, id: SpanId)
    requires HeapGood(h, own) && id in h.spans
    ensures Get(h, h.spans[id].page) == Some(id)
    ensures !WholeOut(h, id) || OutTagged(h) ==> Get(h, h.spans[id].page + h.spans[id].npage - 1) == Some(id)
  {
    var sp := h.spans[id];
    assert EndTagged(h, id) && Within(sp, sp.page) && Within(sp, sp.page + sp.npage - 1);
    assert OutTagged(h) && IsOut(h, id) ==> FullyTagged(h, id);
  }

  /**
   As written, a span of 128 pages leaves the page heap with its last page tagged exactly when it was
   taken from its bucket, where a merge had parked it; fresh from the system it has only its first tag.
   */
  lemma WholeTaggedExactly(v: Variant, h: Heap, own: map<nat, SpanId>, n: nat, sys: nat)
    requires v.tags.AsWritten? && n == NPAGES - 1 && HeapGood(h, own) && Legal(h, Obtain(n, sys))
    ensures NewSpan(v, h, n, sys).Done?
    ensures var (h', id) := NewSpan(v, h, n, sys).value;
            && id in h'.spans && h'.spans[id].npage == n
            && (Get(h', h'.spans[id].page + n - 1) == Some(id) <==> h.buckets[n] != [])
  {
    var own' := NewSpanOk(v, h, own, n, sys);
    if h.buckets[n] != [] {
      ParkedTagged(v, h, own, n, sys);
    } else {
      FreshUntagged(v, h, own, n, sys);
    }
  }

  lemma ParkedTagged(v: Variant, h: Heap, own: map<nat, SpanId>, n: nat, sys: nat)
    requires v.tags.AsWritten? && n == NPAGES - 1 && HeapGood(h, own)
    requires h.buckets[n] != []
    ensures NewSpan(v, h, n, sys).Done?
    ensures var (h', id) := NewSpan(v, h, n, sys).value;
            id in h'.spans && Get(h', h'.spans[id].page + n - 1) == Some(id)
  {
    TakeBuckets(v, h, n);
    EndsMap(h, own, h.buckets[n][0]);
    FoundExact(v, h, n, sys);
  }

  /** A span of the requested size is taken whole. */
  lemma FoundExact(v: Variant, h: Heap, n: nat, sys: nat)
    requires 0 < n < NPAGES && h.buckets[n] != []
    ensures NewSpan(v, h, n, sys) == TakeExact(v, h, n)
  {
  }

  lemma FreshUntagged(v: Variant, h: Heap, own: map<nat, SpanId>, n: nat, sys: nat)
    requires v.tags.AsWritten? && n == NPAGES - 1 && HeapInv(h, own, {}) && Legal(h, Obtain(n, sys))
    requires h.buckets[n] == [] && NewSpan(v, h, n, sys).Done?
    ensures var (h', id) := NewSpan(v, h, n, sys).value;
            id in h'.spans && h'.spans[id].page == sys && sys + n - 1 !in h'.tags
  {
    RefillFirst(h, sys, n);
    var r := Refill(h, sys);
    RefillBuckets(h, sys);
    TakeBuckets(v, r, n);
    assert sys + n - 1 in PageRange(sys, n);
    assert sys + n - 1 !in h.tags;
  }

  /**
   In every heap that legal operations lead to, the obtained pages are partitioned by the live spans,
   each bucket holds spare spans of its own size, and both ends of every live span are tagged with it.
   When every request is safe for the variant, each page of each span that is out is tagged with it.
   */
  lemma {:induction false} RunsKeepHeap(v: Variant, h: Heap, own: map<nat, SpanId>, ops: seq<HeapOp>, h': Heap)
    returns (own': map<nat, SpanId>)
    requires HeapGood(h, own) && RunsTo(v, h, ops, h')
    ensures HeapGood(h', own')
    ensures OutTagged(h) && AllSafe(v, ops) ==> OutTagged(h')
    decreases |ops|
  {
    own' := own;
    if ops != [] {
      var h1, own1;
      match ops[0] {
        case Obtain(n, sys) => h1, own1 := ObtainOk(v, h, own, n, sys);
        case GiveBack(id) => h1, own1 := GiveBackOk(v, h, own, id);
      }
      own' := RunsKeepHeap(v, h1, own1, ops[1..], h');
    }
  }

  /** No legal operation, in any heap a run leads to, touches a dead record. */
  lemma NoFault(v: Variant, ops: seq<HeapOp>, h: Heap, op: HeapOp)
    requires RunsTo(v, EmptyHeap(), ops, h) && Legal(h, op)
    ensures Apply(v, h, op).Done?
  {
    EmptyGood();
    var own := RunsKeepHeap(v, EmptyHeap(), map[], ops, h);
    match op
    case Obtain(n, sys) => var _, _ := ObtainOk(v, h, own, n, sys);
    case GiveBack(id) => var _, _ := GiveBackOk(v, h, own, id);
  }

  lemma EmptyGood()
    ensures HeapGood(EmptyHeap(), map[]) && OutTagged(EmptyHeap())
  {
    assert Partition(EmptyHeap(), map[]) && PoolOk(EmptyHeap());
  }
}
