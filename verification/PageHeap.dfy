/**
 The page heap as a value: span records, free buckets, the page-to-span tags and the record pool,
 with `new_Span` and `relase_to_PageCache` as functions on it.

 A span is named by the address of its record, because the record pool hands the same storage out
 again: a tag that is never cleaned up may name a dead record, or a record reused for other pages.
 */
module PageHeap {
  import opened Basics
  import opened SizeClass

  type SpanId = nat
  type Addr = nat

  datatype Span = Span(
    page: nat, npage: nat,
    isUse: bool, objsize: nat, usecount: nat, objlist: seq<Addr>)

  /** The record pool: `free` is its LIFO free list, `unused` the next record never handed out. */
  datatype Pool = Pool(free: seq<SpanId>, unused: SpanId)

  type Buckets = b: seq<seq<SpanId>> | |b| == NPAGES witness seq(NPAGES, _ => [])

  /** `spans` holds the records in use; `pages` the pages obtained from the system so far. */
  datatype Heap = Heap(
    spans: map<SpanId, Span>,
    buckets: Buckets,
    tags: map<nat, SpanId>,
    pool: Pool,
    pages: set<nat>)

  /** A place in the code is read as its text has it, or as it is evidently meant. */
  datatype Text = AsWritten | Intended

  /**
   `tags`: taking a span from its exact bucket tags, as written, its first page over and over, and as
   intended each page. `carve`: carving admits, as written, an object that starts inside the span but
   may end past it, and as intended only objects that fit.
   */
  datatype Variant = Variant(tags: Text, carve: Text)

  function EmptyHeap(): Heap {
    Heap(map[], seq(NPAGES, _ => []), map[], Pool([], 0), {})
  }

  function Get(h: Heap, p: int): Option<SpanId> {
    if p in h.tags then Some(h.tags[p]) else None
  }

  function SetRange(tags: map<nat, SpanId>, page: nat, n: nat, id: SpanId): (r: map<nat, SpanId>)
    ensures forall p :: p in r <==> p in tags || page <= p < page + n
    ensures forall p :: p in r ==> r[p] == if page <= p < page + n then id else tags[p]
  {
    if n == 0 then tags else SetRange(tags, page, n - 1, id)[page + n - 1 := id]
  }

  function PoolNew(pool: Pool): (SpanId, Pool) {
    if pool.free != [] then (pool.free[0], pool.(free := pool.free[1..]))
    else (pool.unused, pool.(unused := pool.unused + 1))
  }

  function PoolDelete(pool: Pool, id: SpanId): Pool {
    pool.(free := [id] + pool.free)
  }

  function FreshSpan(page: nat, npage: nat): Span {
    Span(page, npage, false, 0, 0, [])
  }

  /** The first non-empty bucket from `i` on; NPAGES when there is none. */
  function FirstBucket(b: Buckets, i: nat): (r: nat)
    requires i <= NPAGES
    ensures i <= r <= NPAGES
    ensures r < NPAGES ==> b[r] != []
    ensures forall j :: i <= j < r ==> b[j] == []
    decreases NPAGES - i
  {
    if i == NPAGES || b[i] != [] then i else FirstBucket(b, i + 1)
  }

  /** A span of exactly the requested size leaves its bucket. */
  function TakeExact(v: Variant, h: Heap, n: nat): Outcome<(Heap, SpanId)>
    requires n < NPAGES && h.buckets[n] != []
  {
    var id := h.buckets[n][0];
    if id !in h.spans then Fault
    else
      var sp := h.spans[id];
      var tagged := if v.tags.Intended? then sp.npage else 1;
      Done((h.(buckets := h.buckets[n := h.buckets[n][1..]],
               tags := SetRange(h.tags, sp.page, tagged, id)), id))
  }

  /** The head of a larger span becomes a new span; the rest goes to a smaller bucket. */
  function Split(h: Heap, i: nat, n: nat): Outcome<(Heap, SpanId)>
    requires 0 < n < i < NPAGES && h.buckets[i] != []
  {
    var (id, pool) := PoolNew(h.pool);
    var rest := h.buckets[i][0];
    if rest !in h.spans || !(n < h.spans[rest].npage < NPAGES) then Fault
    else
      var sp := h.spans[rest];
      var restSp := sp.(page := sp.page + n, npage := sp.npage - n);
      var popped: Buckets := h.buckets[i := h.buckets[i][1..]];
      var tags := h.tags[restSp.page := rest][restSp.page + restSp.npage - 1 := rest];
      Done((Heap(h.spans[id := FreshSpan(sp.page, n)][rest := restSp],
                 popped[restSp.npage := [rest] + popped[restSp.npage]],
                 SetRange(tags, sp.page, n, id),
                 pool,
                 h.pages), id))
  }

  function PageRange(page: nat, n: nat): (r: set<nat>)
    ensures forall p :: p in r <==> page <= p < page + n
  {
    if n == 0 then {} else PageRange(page, n - 1) + {page + n - 1}
  }

  /** 128 pages from the system, kept as one free span; its pages are not tagged yet. */
  function Refill(h: Heap, sys: nat): Heap {
    var (id, pool) := PoolNew(h.pool);
    h.(spans := h.spans[id := FreshSpan(sys, NPAGES - 1).(objsize := (NPAGES - 1) * PAGESIZE)],
       buckets := h.buckets[NPAGES - 1 := [id] + h.buckets[NPAGES - 1]],
       pool := pool,
       pages := h.pages + PageRange(sys, NPAGES - 1))
  }

  function Take(v: Variant, h: Heap, n: nat): Outcome<(Heap, SpanId)>
    requires 0 < n < NPAGES && FirstBucket(h.buckets, n) < NPAGES
  {
    var i := FirstBucket(h.buckets, n);
    if i == n then TakeExact(v, h, n) else Split(h, i, n)
  }

  /** `new_Span` for a request of 1 to 128 pages; `sys` is the page the system would return. */
  function NewSpan(v: Variant, h: Heap, n: nat, sys: nat): Outcome<(Heap, SpanId)>
    requires 0 < n < NPAGES
  {
    if FirstBucket(h.buckets, n) < NPAGES then Take(v, h, n)
    else
      var r := Refill(h, sys);
      assert r.buckets[NPAGES - 1] != [];
      Take(v, r, n)
  }

  /** `id` swallows the free neighbour `r`, whose record goes back to the pool. */
  function Absorb(h: Heap, id: SpanId, r: SpanId, page: nat): Heap
    requires id in h.spans && r in h.spans && id != r && h.spans[r].npage < NPAGES
  {
    var sp, nb := h.spans[id], h.spans[r];
    h.(spans := (h.spans - {r})[id := sp.(page := page, npage := sp.npage + nb.npage)],
       buckets := h.buckets[nb.npage := Remove(h.buckets[nb.npage], r)],
       pool := PoolDelete(h.pool, r))
  }

  /** The guards of both merge loops: a neighbour in use, or too large together, is left alone. */
  predicate Stops(h: Heap, id: SpanId, r: SpanId)
    requires id in h.spans && r in h.spans
  {
    h.spans[r].isUse || h.spans[r].npage + h.spans[id].npage >= NPAGES
  }

  /** Unlinking is only meaningful for a record that is linked in its bucket. */
  predicate Unlinkable(h: Heap, id: SpanId, r: SpanId)
    requires r in h.spans
  {
    r != id && 0 < h.spans[r].npage < NPAGES && r in h.buckets[h.spans[r].npage]
  }

  function MergeLeft(h: Heap, id: SpanId): Outcome<Heap>
    requires id in h.spans
    decreases NPAGES - h.spans[id].npage
  {
    match Get(h, h.spans[id].page - 1)
    case None => Done(h)
    case Some(r) =>
      if r !in h.spans then Fault
      else if Stops(h, id, r) then Done(h)
      else if !Unlinkable(h, id, r) then Fault
      else MergeLeft(Absorb(h, id, r, h.spans[r].page), id)
  }

  function MergeRight(h: Heap, id: SpanId): Outcome<Heap>
    requires id in h.spans
    decreases NPAGES - h.spans[id].npage
  {
    match Get(h, h.spans[id].page + h.spans[id].npage)
    case None => Done(h)
    case Some(r) =>
      if r !in h.spans then Fault
      else if Stops(h, id, r) then Done(h)
      else if !Unlinkable(h, id, r) then Fault
      else MergeRight(Absorb(h, id, r, h.spans[id].page), id)
  }

  /** The merged span is linked in its bucket and tagged at both ends. */
  function Park(h: Heap, id: SpanId): Outcome<Heap>
  {
    if id !in h.spans || !(0 < h.spans[id].npage < NPAGES) then Fault
    else
      var sp := h.spans[id];
      Done(h.(spans := h.spans[id := sp.(isUse := false)],
              buckets := h.buckets[sp.npage := [id] + h.buckets[sp.npage]],
              tags := h.tags[sp.page := id][sp.page + sp.npage - 1 := id]))
  }

  /** `relase_to_PageCache` for a span of fewer than NPAGES pages. */
  function Release(h: Heap, id: SpanId): Outcome<Heap>
    requires id in h.spans
  {
    match MergeLeft(h, id)
    case Fault => Fault
    case Done(l) =>
      if id !in l.spans then Fault
      else match MergeRight(l, id)
      case Fault => Fault
      case Done(m) => Park(m, id)
  }
}
