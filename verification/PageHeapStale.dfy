/**
 The exact-bucket path as written tags only the first page of the span it returns. A run of six calls
 shows the harm for every request of three pages or more: an interior page still names a dead record.
 */
module PageHeapStale {
  import opened Basics
  import opened SizeClass
  import opened PageHeap
  import opened PageHeapInvariant
  import opened PageHeapRuns

  const WRITTEN: Variant := Variant(AsWritten, AsWritten)

  const BIG: nat := (NPAGES - 1) * PAGESIZE

  function Only(i: nat, l: seq<SpanId>): Buckets {
    seq(NPAGES, j => if j == i then l else [])
  }

  function Free(page: nat, npage: nat): Span {
    Span(page, npage, false, BIG, 0, [])
  }

  function Used(page: nat, npage: nat): Span {
    Span(page, npage, true, 0, 0, [])
  }

  lemma FirstIs(b: Buckets, i: nat, r: nat)
    requires i <= r < NPAGES && b[r] != [] && forall j :: i <= j < r ==> b[j] == []
    ensures FirstBucket(b, i) == r
  {
  }

  /** A lone span changes buckets. */
  lemma Rebucket(i: nat, j: nat, x: SpanId)
    requires i < NPAGES && j < NPAGES && i != j
    ensures var b := Only(i, [x]);
            var p: Buckets := b[i := b[i][1..]];
            p[j := [x] + p[j]] == Only(j, [x])
  {
    var b := Only(i, [x]);
    var p: Buckets := b[i := b[i][1..]];
    var q: Buckets := p[j := [x] + p[j]];
    forall m | 0 <= m < NPAGES ensures q[m] == Only(j, [x])[m] {
    }
  }

  /** Cutting a head off the only free span. */
  lemma SplitLone(g: Heap, page: nat, i: nat, n: nat, id: SpanId) returns (h: Heap)
    requires 0 < n < i < NPAGES && g.buckets == Only(i, [0]) && 0 in g.spans && g.spans[0] == Free(page, i)
    requires g.pool == Pool([], id) && id > 0
    ensures Split(g, i, n) == Done((h, id)) && h.buckets == Only(i - n, [0]) && h.pages == g.pages
    ensures h.spans == g.spans[id := FreshSpan(page, n)][0 := Free(page + n, i - n)] && h.pool == Pool([], id + 1)
    ensures forall p :: p < page ==> (p in h.tags <==> p in g.tags) && (p in g.tags ==> h.tags[p] == g.tags[p])
    ensures forall p :: page <= p < page + n ==> p in h.tags && h.tags[p] == id
  {
    Rebucket(i, i - n, 0);
    h := Split(g, i, n).value.0;
  }

  lemma TakeLone(g: Heap, page: nat, i: nat, n: nat, id: SpanId, sys: nat) returns (h: Heap)
    requires 0 < n < i < NPAGES && g.buckets == Only(i, [0]) && 0 in g.spans && g.spans[0] == Free(page, i)
    requires g.pool == Pool([], id) && id > 0
    ensures Apply(WRITTEN, g, Obtain(n, sys)) == Done(h) && h.buckets == Only(i - n, [0]) && h.pages == g.pages
    ensures h.spans == g.spans[id := Used(page, n)][0 := Free(page + n, i - n)] && h.pool == Pool([], id + 1)
    ensures forall p :: p < page ==> (p in h.tags <==> p in g.tags) && (p in g.tags ==> h.tags[p] == g.tags[p])
    ensures forall p :: page <= p < page + n ==> p in h.tags && h.tags[p] == id
  {
    FirstIs(g.buckets, n, i);
    var m := SplitLone(g, page, i, n, id);
    h := Mark(m, id);
    assert h.spans == g.spans[id := Used(page, n)][0 := Free(page + n, i - n)];
  }

  ghost predicate Below(pages: set<nat>, bound: nat) {
    forall p :: p in pages ==> p < bound
  }

  /** The heap after the first call: page 1 is out as span 1, the rest of the region is span 0. */
  ghost predicate At1(h: Heap) {
    && h.spans == map[0 := Free(2, 127), 1 := Used(1, 1)] && h.buckets == Only(127, [0])
    && 0 !in h.tags && 1 in h.tags && h.tags[1] == 1
    && h.pool == Pool([], 2) && Below(h.pages, 200)
  }

  /** Pages 2..k are out as span 2. */
  ghost predicate At2(h: Heap, k: nat) {
    && 3 <= k <= 127
    && h.spans == map[0 := Free(k + 1, 128 - k), 1 := Used(1, 1), 2 := Used(2, k - 1)]
    && h.buckets == Only(128 - k, [0])
    && 0 !in h.tags && 1 in h.tags && h.tags[1] == 1 && 2 in h.tags && h.tags[2] == 2
    && h.pool == Pool([], 3) && Below(h.pages, 200)
  }

  /** Page k + 1 is in use as span `r`. */
  ghost predicate At3(h: Heap, k: nat, r: SpanId) {
    && 3 <= k <= 127 && r != 1 && r != 2
    && 1 in h.spans && h.spans[1] == Used(1, 1)
    && 2 in h.spans && h.spans[2] == Used(2, k - 1)
    && r in h.spans && h.spans[r].isUse
    && 0 !in h.tags && 1 in h.tags && h.tags[1] == 1 && 2 in h.tags && h.tags[2] == 2
    && k + 1 in h.tags && h.tags[k + 1] == r
    && 1 !in h.buckets[1] && 2 !in h.buckets[k - 1] && Below(h.pages, 200)
  }

  /** Span 2 is back between two spans in use. */
  ghost predicate At4(h: Heap, k: nat, r: SpanId) {
    && 3 <= k <= 127 && r != 1 && r != 2
    && 1 in h.spans && h.spans[1] == Used(1, 1)
    && 2 in h.spans && h.spans[2] == Used(2, k - 1).(isUse := false)
    && r in h.spans && h.spans[r].isUse
    && 0 !in h.tags && 2 in h.tags && h.tags[2] == 2 && k + 1 in h.tags && h.tags[k + 1] == r
    && 2 in h.buckets[k - 1] && 1 !in h.buckets[1] && Below(h.pages, 200)
  }

  /** Span 1 has swallowed span 2, whose record is dead; page 2 still names it. */
  ghost predicate At5(h: Heap, k: nat) {
    && 3 <= k <= 127
    && 1 in h.spans && h.spans[1] == Used(1, k).(isUse := false) && 2 !in h.spans
    && h.buckets[k] != [] && h.buckets[k][0] == 1
    && 2 in h.tags && h.tags[2] == 2 && Below(h.pages, 200)
  }

  lemma FirstNone(b: Buckets, i: nat)
    requires i < NPAGES && forall j :: 0 <= j < NPAGES ==> b[j] == []
    ensures FirstBucket(b, i) == NPAGES
  {
  }

  lemma Refill1(e: Heap, start: nat) returns (r: Heap)
    requires e == EmptyHeap() && start == 1
    ensures r == Refill(e, start) && r.buckets == Only(128, [0]) && r.spans == map[0 := Free(start, 128)]
    ensures r.tags == map[] && r.pool == Pool([], 1) && Below(r.pages, 200)
  {
    r := Refill(e, start);
    forall m | 0 <= m < NPAGES ensures r.buckets[m] == Only(128, [0])[m] {
    }
  }

  lemma Step1(start: nat, one: nat) returns (h: Heap)
    requires start == 1 && one == 1
    ensures Legal(EmptyHeap(), Obtain(one, start)) && Apply(WRITTEN, EmptyHeap(), Obtain(one, start)) == Done(h) &&
      At1(h)
  {
    var e := EmptyHeap();
    FirstNone(e.buckets, one);
    var r := Refill1(e, start);
    FirstIs(r.buckets, one, 128);
    h := TakeLone(r, start, 128, one, 1, start);
    RefillOnce(e, r, one, start);
  }

  /** A request served after a refill is the same request on the refilled heap. */
  lemma RefillOnce(h: Heap, r: Heap, n: nat, sys: nat)
    requires 0 < n < NPAGES && r == Refill(h, sys)
    requires FirstBucket(h.buckets, n) == NPAGES && FirstBucket(r.buckets, n) < NPAGES
    ensures NewSpan(WRITTEN, h, n, sys) == NewSpan(WRITTEN, r, n, sys)
  {
  }

  lemma Step2(k: nat, sys: nat, g: Heap) returns (h: Heap)
    requires At1(g) && 3 <= k <= 127 && sys >= 200
    ensures Legal(g, Obtain(k - 1, sys)) && Apply(WRITTEN, g, Obtain(k - 1, sys)) == Done(h) && At2(h, k)
  {
    h := TakeLone(g, 2, 127, k - 1, 2, sys);
  }

  lemma Step3(k: nat, sys: nat, g: Heap, one: nat) returns (h: Heap, r: SpanId)
    requires At2(g, k) && sys >= 200 && one == 1
    ensures Legal(g, Obtain(one, sys)) && Apply(WRITTEN, g, Obtain(one, sys)) == Done(h) && At3(h, k, r)
  {
    if k < 127 {
      h := TakeLone(g, k + 1, 128 - k, one, 3, sys);
      r := 3;
    } else {
      h := TakeLast(g, k + 1, one, sys);
      r := 0;
    }
  }

  /** The only free span is one page, and is taken whole. */
  lemma TakeLast(g: Heap, page: nat, one: nat, sys: nat) returns (h: Heap)
    requires one == 1 && g.buckets == Only(one, [0]) && 0 in g.spans && g.spans[0] == Free(page, one)
    ensures Apply(WRITTEN, g, Obtain(one, sys)) == Done(h) && h.pages == g.pages
    ensures h.spans == g.spans[0 := Free(page, one).(isUse := true)] && h.tags == g.tags[page := 0]
    ensures forall i :: 0 <= i < NPAGES ==> h.buckets[i] == []
  {
    FirstIs(g.buckets, one, one);
    var m := TakeExact(WRITTEN, g, one).value.0;
    assert SetRange(g.tags, page, one, 0) == SetRange(g.tags, page, one - 1, 0)[page := 0];
    h := Mark(m, 0);
  }

  lemma Step4(k: nat, g: Heap, r: SpanId) returns (h: Heap)
    requires At3(g, k, r)
    ensures Legal(g, GiveBack(2)) && Apply(WRITTEN, g, GiveBack(2)) == Done(h) && At4(h, k, r)
  {
    assert MergeLeft(g, 2) == Done(g);
    assert MergeRight(g, 2) == Done(g);
    h := Park(g, 2).value;
  }

  lemma Step5(k: nat, g: Heap, r: SpanId) returns (h: Heap)
    requires At4(g, k, r)
    ensures Legal(g, GiveBack(1)) && Apply(WRITTEN, g, GiveBack(1)) == Done(h) && At5(h, k)
  {
    assert MergeLeft(g, 1) == Done(g);
    var m := Absorb(g, 1, 2, 1);
    assert MergeRight(m, 1) == Done(m);
    assert MergeRight(g, 1) == MergeRight(m, 1);
    h := Park(m, 1).value;
  }

  lemma Step6(k: nat, sys: nat, g: Heap)
    requires At5(g, k) && sys >= 200
    ensures Legal(g, Obtain(k, sys)) && NewSpan(WRITTEN, g, k, sys).Done?
    ensures var (h, id) := NewSpan(WRITTEN, g, k, sys).value;
            id in h.spans && id == 1 && Within(h.spans[id], 2) && 2 in h.tags && h.tags[2] == 2
  {
    FirstIs(g.buckets, k, k);
  }

  lemma FiveSteps(v: Variant, h0: Heap, h1: Heap, h2: Heap, h3: Heap, h4: Heap, h5: Heap, a: HeapOp, b: HeapOp,
      c: HeapOp, d: HeapOp, e: HeapOp)
    requires Legal(h0, a) && Apply(v, h0, a) == Done(h1)
    requires Legal(h1, b) && Apply(v, h1, b) == Done(h2)
    requires Legal(h2, c) && Apply(v, h2, c) == Done(h3)
    requires Legal(h3, d) && Apply(v, h3, d) == Done(h4)
    requires Legal(h4, e) && Apply(v, h4, e) == Done(h5)
    ensures RunsTo(v, h0, [a, b, c, d, e], h5)
  {
    OneMore(v, h4, e, [], h5, h5);
    OneMore(v, h3, d, [e], h4, h5);
    OneMore(v, h2, c, [d, e], h3, h5);
    OneMore(v, h1, b, [c, d, e], h2, h5);
    OneMore(v, h0, a, [b, c, d, e], h1, h5);
  }

  /** `RunsTo` with one more operation in front. */
  lemma OneMore(v: Variant, h: Heap, op: HeapOp, ops: seq<HeapOp>, m: Heap, h': Heap)
    requires Legal(h, op) && Apply(v, h, op) == Done(m) && RunsTo(v, m, ops, h')
    ensures RunsTo(v, h, [op] + ops, h')
  {
    assert ([op] + ops)[1..] == ops;
  }

  lemma StaleRun(k: nat, one: nat, sys: nat) returns (ops: seq<HeapOp>, h: Heap)
    requires 3 <= k <= 127 && one == 1 && sys >= 200
    ensures RunsTo(WRITTEN, EmptyHeap(), ops, h) && At5(h, k)
  {
    var h1 := Step1(one, one);
    var h2 := Step2(k, sys, h1);
    var h3, r := Step3(k, sys, h2, one);
    var h4 := Step4(k, h3, r);
    h := Step5(k, h4, r);
    ops := [Obtain(one, one), Obtain(k - 1, sys), Obtain(one, sys), GiveBack(2), GiveBack(1)];
    FiveSteps(WRITTEN, EmptyHeap(), h1, h2, h3, h4, h,
              Obtain(one, one), Obtain(k - 1, sys), Obtain(one, sys), GiveBack(2), GiveBack(1));
  }

  /** A span of 128 pages straight from the system: only its first page is tagged. */
  lemma FreshWhole(h: Heap, n: nat, sys: nat)
    requires n == NPAGES - 1 && h == EmptyHeap() && sys == 1
    ensures Legal(h, Obtain(n, sys)) && NewSpan(WRITTEN, h, n, sys).Done?
    ensures var (h', id) := NewSpan(WRITTEN, h, n, sys).value; id in h'.spans && !FullyTagged(h', id)
  {
    FirstNone(h.buckets, n);
    var r := Refill(h, sys);
    FirstIs(r.buckets, n, n);
    RefillOnce(h, r, n, sys);
    var (h', id) := TakeExact(WRITTEN, r, n).value;
    assert Within(h'.spans[id], 2) && 2 !in h'.tags;
  }

  /** In every heap a run as written leads to, a request of `n` pages is tagged on every page. */
  ghost predicate AlwaysTagged(n: nat)
    requires 0 < n < NPAGES
  {
    forall ops, h, sys :: RunsTo(WRITTEN, EmptyHeap(), ops, h) && Legal(h, Obtain(n, sys)) ==>
      NewSpan(WRITTEN, h, n, sys).Done?
      && var (h', id) := NewSpan(WRITTEN, h, n, sys).value; id in h'.spans && FullyTagged(h', id)
  }

  /**
   As written, every page of every span of `n` pages is tagged with it, over all runs, exactly when
   `n` is at most two.
   */
  lemma WrittenTagsExactly(n: nat)
    requires 0 < n < NPAGES
    ensures AlwaysTagged(n) <==> n <= 2
  {
    if n <= 2 {
      forall ops, h, sys | RunsTo(WRITTEN, EmptyHeap(), ops, h) && Legal(h, Obtain(n, sys))
        ensures NewSpan(WRITTEN, h, n, sys).Done?
        ensures var (h', id) := NewSpan(WRITTEN, h, n, sys).value; id in h'.spans && FullyTagged(h', id)
      {
        EmptyGood();
        var own := RunsKeepHeap(WRITTEN, EmptyHeap(), map[], ops, h);
        var _ := NewSpanOk(WRITTEN, h, own, n, sys);
      }
    } else if n == NPAGES - 1 {
      FreshWhole(EmptyHeap(), n, 1);
      assert RunsTo(WRITTEN, EmptyHeap(), [], EmptyHeap());
    } else {
      var one: nat, sys: nat :| one == 1 && sys == 200;
      var ops, h := StaleRun(n, one, sys);
      Step6(n, sys, h);
      assert !FullyTagged(NewSpan(WRITTEN, h, n, sys).value.0, NewSpan(WRITTEN, h, n, sys).value.1);
    }
  }
}
