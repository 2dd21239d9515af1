/** What the carving loop lays out in a span: where objects start, and where they end. */
module Carving {
  import opened Basics
  import opened SizeClass
  import opened PageHeap
  import opened PageHeapInvariant
  import opened Allocator

  lemma {:induction false} ObjectsAt(start: nat, size: nat, n: nat)
    ensures |Objects(start, size, n)| == n
    ensures forall i :: 0 <= i < n ==> Objects(start, size, n)[i] == start + i * size
  {
    if n > 0 {
      ObjectsAt(start, size, n - 1);
    }
  }

  lemma ObjectIndex(start: nat, size: nat, n: nat, a: Addr) returns (i: nat)
    requires a in Objects(start, size, n)
    ensures i < n && a == start + i * size
  {
    ObjectsAt(start, size, n);
    var k :| 0 <= k < n && Objects(start, size, n)[k] == a;
    i := k;
  }

  lemma ObjectsNoDup(start: nat, size: nat, n: nat)
    requires size > 0
    ensures NoDup(Objects(start, size, n))
  {
    ObjectsAt(start, size, n);
    forall i, j | 0 <= i < j < n
      ensures Objects(start, size, n)[i] != Objects(start, size, n)[j]
    {
      Multiple(i, j, size);
    }
  }

  function Bytes(sp: Span): nat {
    sp.npage * PAGESIZE
  }

  function End(sp: Span): nat {
    (sp.page + sp.npage) * PAGESIZE
  }

  /** How many objects fit, and how far the last one written reaches. */
  lemma CountBounds(v: Variant, bytes: nat, size: nat)
    requires size > 0
    ensures v.carve.Intended? ==> CarveCount(v, bytes, size) * size <= bytes < CarveCount(v, bytes, size) * size + size
    ensures v.carve.AsWritten? ==> bytes <= CarveCount(v, bytes, size) * size < bytes + size
    ensures size <= bytes ==> CarveCount(v, bytes, size) > 0
  {
    var x := if v.carve.Intended? then bytes else bytes + size - 1;
    DivMod(x, size);
    if CarveCount(v, bytes, size) == 0 {
      assert x < size;
    }
  }

  /** Every carved object starts inside the span, at a multiple of the object size. */
  lemma CarvedStarts(v: Variant, sp: Span, a: Addr)
    requires a in Carved(v, sp)
    ensures sp.objsize > 0 && sp.page * PAGESIZE <= a < End(sp)
    ensures Within(sp, PageOf(a))
    ensures v.carve.Intended? ==> a + sp.objsize <= End(sp)
    ensures a + sp.objsize < End(sp) + sp.objsize
  {
    var n := CarveCount(v, Bytes(sp), sp.objsize);
    var i := ObjectIndex(sp.page * PAGESIZE, sp.objsize, n, a);
    CountBounds(v, Bytes(sp), sp.objsize);
    Multiple(i, n, sp.objsize);
    assert End(sp) == sp.page * PAGESIZE + Bytes(sp);
    PageWithin(sp, a);
  }

  lemma PageWithin(sp: Span, a: Addr)
    requires sp.page * PAGESIZE <= a < End(sp)
    ensures Within(sp, PageOf(a))
  {
  }

  lemma CarvedList(v: Variant, sp: Span)
    requires sp.objsize > 0
    ensures NoDup(Carved(v, sp)) && |Carved(v, sp)| == CarveCount(v, Bytes(sp), sp.objsize)
    ensures sp.objsize <= Bytes(sp) ==> Carved(v, sp) != []
  {
    var n := CarveCount(v, Bytes(sp), sp.objsize);
    ObjectsAt(sp.page * PAGESIZE, sp.objsize, n);
    ObjectsNoDup(sp.page * PAGESIZE, sp.objsize, n);
    CountBounds(v, Bytes(sp), sp.objsize);
  }

  /** Objects of one span never overlap each other. */
  lemma CarvedDisjoint(v: Variant, sp: Span, a: Addr, b: Addr)
    requires a in Carved(v, sp) && b in Carved(v, sp) && a != b
    ensures a + sp.objsize <= b || b + sp.objsize <= a
  {
    var n := CarveCount(v, Bytes(sp), sp.objsize);
    var i := ObjectIndex(sp.page * PAGESIZE, sp.objsize, n, a);
    var j := ObjectIndex(sp.page * PAGESIZE, sp.objsize, n, b);
    if i < j {
      Multiple(i, j, sp.objsize);
    } else {
      Multiple(j, i, sp.objsize);
    }
  }

  lemma CountDivides(v: Variant, bytes: nat, size: nat)
    requires v.carve.AsWritten? && size > 0
    ensures CarveCount(v, bytes, size) * size == bytes <==> bytes % size == 0
  {
    var n := CarveCount(v, bytes, size);
    CountBounds(v, bytes, size);
    if bytes % size == 0 {
      var q := bytes / size;
      DivMod(bytes, size);
      if q < n {
        Multiple(q, n, size);
      } else if n < q {
        Multiple(n, q, size);
      }
    } else if n * size == bytes {
      ModUnique(bytes, size, n, 0);
    }
  }

  lemma LastCarved(v: Variant, sp: Span) returns (last: Addr)
    requires v.carve.AsWritten? && sp.objsize > 0 && sp.npage > 0
    ensures last in Carved(v, sp)
    ensures last + sp.objsize == sp.page * PAGESIZE + CarveCount(v, Bytes(sp), sp.objsize) * sp.objsize
  {
    var size, n := sp.objsize, CarveCount(v, Bytes(sp), sp.objsize);
    CountBounds(v, Bytes(sp), size);
    ObjectsAt(sp.page * PAGESIZE, size, n);
    last := Objects(sp.page * PAGESIZE, size, n)[n - 1];
    Distribute(n - 1, 1, size);
  }

  /**
   As written, every carved object ends inside its span exactly when the object size divides the
   span; otherwise the last one runs into the pages that follow.
   */
  lemma WrittenCarveFits(v: Variant, sp: Span)
    requires v.carve.AsWritten? && sp.objsize > 0 && sp.npage > 0
    ensures (forall a :: a in Carved(v, sp) ==> a + sp.objsize <= End(sp)) <==> Bytes(sp) % sp.objsize == 0
  {
    var size, n := sp.objsize, CarveCount(v, Bytes(sp), sp.objsize);
    CountBounds(v, Bytes(sp), size);
    CountDivides(v, Bytes(sp), size);
    var last := LastCarved(v, sp);
    if Bytes(sp) % size == 0 {
      forall a | a in Carved(v, sp) ensures a + size <= End(sp) {
        var i := ObjectIndex(sp.page * PAGESIZE, size, n, a);
        Multiple(i, n, size);
      }
    }
  }

  /** A 24-byte class gets a span of one page, which 24 does not divide. */
  lemma WrittenCarveOverruns(v: Variant)
    requires v.carve.AsWritten?
    ensures NumMovePage(24) == 1 && RoundUp(24) == 24
    ensures exists a :: a in Carved(v, Span(1, 1, true, 24, 0, [])) && a + 24 > 2 * PAGESIZE
  {
    RoundUpIs(24);
    WrittenCarveFits(v, Span(1, 1, true, 24, 0, []));
  }
}
