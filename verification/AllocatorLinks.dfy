/**
 Free objects keep their chain in their own first word, in memory that users write next to. A user
 may fill a block from its address to its length; here is exactly when that leaves every link alone.
 */
module AllocatorLinks {
  import opened Basics
  import opened SizeClass
  import opened PageHeap
  import opened PageHeapInvariant
  import opened Allocator
  import opened AllocatorInvariant
  import opened AllocatorRuns
  import opened AllocatorSafety
  import opened Carving

  /** The bytes of the pointer a free object starts with. */
  const LINK: nat := 8

  lemma MultipleOfEight(i: nat, size: nat)
    requires size % LINK == 0
    ensures (i * size) % LINK == 0
  {
    var q := size / LINK;
    assert i * size == (i * q) * LINK;
    ModUnique(i * size, LINK, i * q, 0);
  }

  /** The first word of every object lies inside its span, as each size is a multiple of the word. */
  lemma LinkInside(v: Variant, sp: Span, b: Addr)
    requires b in Carved(v, sp) && sp.objsize > 0 && sp.objsize % LINK == 0
    ensures sp.page * PAGESIZE <= b && b + LINK <= End(sp)
  {
    CarvedStarts(v, sp, b);
    var i := ObjectIndex(sp.page * PAGESIZE, sp.objsize, CarveCount(v, Bytes(sp), sp.objsize), b);
    MultipleOfEight(i, sp.objsize);
    WordFits(sp.page, i * sp.objsize, sp.page + sp.npage);
  }

  /** Between a word boundary and a later page boundary there is room for a word. */
  lemma WordFits(page: nat, offset: nat, end: nat)
    requires offset % LINK == 0 && page * PAGESIZE + offset < end * PAGESIZE
    ensures page * PAGESIZE + offset + LINK <= end * PAGESIZE
  {
  }

  /** What anybody holds is an object of a span that is out, with the size of a class. */
  lemma HeldObject(k: Setup, s: State, w: Witness, l: Place, b: Addr) returns (j: SpanId)
    requires Inv(k, s, w) && Holds(s, l, b)
    ensures IsOut(s.heap, j) && b in Carved(k.v, s.heap.spans[j])
    ensures s.heap.spans[j].objsize >= LINK && s.heap.spans[j].objsize % LINK == 0
    ensures l == WithUser ==> s.live[b] == s.heap.spans[j].objsize && s.heap.spans[j].npage == NumMovePage(s.live[b])
  {
    j := w.own[PageOf(b)];
    assert SpanOk(k, s, w, j);
    assert w.objs[j] == Carved(k.v, s.heap.spans[j]);
    var c := ServedClass(k, s, w, j);
    ClassTable(c);
    assert k.size[c] == ClassSize(c) && k.pages[c] == NumMovePage(ClassSize(c));
  }

  /** A span that has been carved is laid out for one class. */
  lemma ServedClass(k: Setup, s: State, w: Witness, j: SpanId) returns (c: nat)
    requires j in w.home && j in w.objs && SpanOk(k, s, w, j)
    ensures Serves(k, s.heap.spans[j], c)
  {
    match w.home[j]
    case Listed(d) => c := d;
    case Carried(t) => c := s.pc[t].c;
  }

  predicate MissesLink(a: Addr, len: nat, b: Addr) {
    a + len <= b || b + LINK <= a
  }

  /** Two objects of one span: neither reaches the other's first word. */
  lemma SameSpanMisses(v: Variant, sp: Span, a: Addr, b: Addr)
    requires a in Carved(v, sp) && b in Carved(v, sp) && a != b && sp.objsize >= LINK
    ensures MissesLink(a, sp.objsize, b)
  {
    CarvedDisjoint(v, sp, a, b);
  }

  /**
   In every reachable state a user's block reaches the link of another object, whoever holds that,
   exactly when the object starts in the part of the block that runs past the end of its span.
   */
  lemma UserMissesLinkExactly(v: Variant, s: State, l: Place, a: Addr, b: Addr) returns (id: SpanId)
    requires Reachable(v, s) && a in s.live && Holds(s, l, b) && a != b
    ensures IsOut(s.heap, id) && s.heap.spans[id].page * PAGESIZE <= a < End(s.heap.spans[id])
    ensures MissesLink(a, s.live[a], b) <==> !(End(s.heap.spans[id]) <= b < a + s.live[a])
  {
    var k, w := ReachableInv(v, s);
    assert Holds(s, WithUser, a);
    id := HeldObject(k, s, w, WithUser, a);
    var j := HeldObject(k, s, w, l, b);
    var sp, sq := s.heap.spans[id], s.heap.spans[j];
    LinkInside(v, sp, a);
    LinkInside(v, sq, b);
    if id == j {
      SameSpanMisses(v, sp, a, b);
    } else {
      SpansApart(s.heap, w.own, id, j);
    }
  }

  /**
   A user's block never reaches the link of another object: with the carving guard as intended always,
   as written when its length divides its span. So chains are what the lists say they are.
   */
  lemma UserMissesLinks(v: Variant, s: State, l: Place, a: Addr, b: Addr)
    requires Reachable(v, s) && a in s.live && Holds(s, l, b) && a != b && EndsInside(v, s.live[a])
    ensures MissesLink(a, s.live[a], b)
  {
    var k, w := ReachableInv(v, s);
    assert Holds(s, WithUser, a);
    var id := HeldObject(k, s, w, WithUser, a);
    BlockInside(v, s.heap.spans[id], a);
    var id' := UserMissesLinkExactly(v, s, l, a, b);
    SameHome(s, w, id, id', a);
  }

  /** An address lies in one live span. */
  lemma SameHome(s: State, w: Witness, i: SpanId, j: SpanId, a: Addr)
    requires Partition(s.heap, w.own) && i in s.heap.spans && j in s.heap.spans
    requires s.heap.spans[i].page * PAGESIZE <= a < End(s.heap.spans[i])
    requires s.heap.spans[j].page * PAGESIZE <= a < End(s.heap.spans[j])
    ensures i == j
  {
    if i != j {
      SpansApart(s.heap, w.own, i, j);
    }
  }

  /**
   As written, a user's block that reaches the end of its span misses the link of an object that starts
   there exactly when the block's length divides the span: in every other class it overwrites it.
   */
  lemma BoundaryLinkExactly(v: Variant, s: State, l: Place, a: Addr, b: Addr) returns (id: SpanId)
    requires Reachable(v, s) && v.carve.AsWritten? && a in s.live && Holds(s, l, b)
    ensures IsOut(s.heap, id) && s.heap.spans[id].page * PAGESIZE <= a < End(s.heap.spans[id]) && s.live[a] > 0
    ensures a + s.live[a] >= End(s.heap.spans[id]) == b ==>
      (MissesLink(a, s.live[a], b) <==> NumMovePage(s.live[a]) * PAGESIZE % s.live[a] == 0)
  {
    var k, w := ReachableInv(v, s);
    id := LiveBlock(k, s, w, a);
    var sp := s.heap.spans[id];
    CarvedStarts(v, sp, a);
    if EndsInside(v, s.live[a]) {
      BlockInside(v, sp, a);
    }
    if a + s.live[a] == End(sp) {
      EndsAtEnd(v, sp, a);
    }
  }
}
