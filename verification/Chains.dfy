/**
 Free objects are chained through their own first word. The lists of the allocator as pointers into
 one memory, each operation proved to do to its chain what the sequence operation does.
 */
module Chains {
  import opened Basics
  import opened SizeClass
  import opened PageHeap
  import opened Allocator
  import opened Carving

  /** The first word of every object, read as a pointer; 0 is null. */
  class Memory {
    var next: map<Addr, Addr>

    constructor ()
      ensures next == map[]
    {
      next := map[];
    }
  }

  function HeadOf(s: seq<Addr>): Addr {
    if s == [] then 0 else s[0]
  }

  /** Where the i-th object of `s` should lead. */
  function LinkOf(s: seq<Addr>, i: nat, tail: Addr): Addr {
    if i + 1 < |s| then s[i + 1] else tail
  }

  /** The objects of `s`, in order, linked each to the next; the last leads to `tail`. */
  ghost predicate Segment(next: map<Addr, Addr>, s: seq<Addr>, tail: Addr) {
    forall i :: 0 <= i < |s| ==>
      s[i] != 0 && s[i] in next && next[s[i]] == LinkOf(s, i, tail)
  }

  ghost predicate Chain(next: map<Addr, Addr>, head: Addr, s: seq<Addr>) {
    head == HeadOf(s) && Segment(next, s, 0) && NoDup(s)
  }

  /** Only the words of `touched` may differ. */
  ghost predicate OnlyAt(m: map<Addr, Addr>, m': map<Addr, Addr>, touched: set<Addr>) {
    forall a :: a !in touched ==> (a in m' <==> a in m) && (a in m ==> m'[a] == m[a])
  }

  /** A chain survives writes elsewhere. */
  lemma ChainKept(m: map<Addr, Addr>, m': map<Addr, Addr>, touched: set<Addr>, head: Addr, s: seq<Addr>)
    requires Chain(m, head, s) && OnlyAt(m, m', touched) && forall a :: a in s ==> a !in touched
    ensures Chain(m', head, s)
  {
    forall i | 0 <= i < |s| ensures s[i] !in touched {
      assert s[i] in s;
    }
  }

  /** What follows the first n objects is a chain. */
  lemma RestChain(m: map<Addr, Addr>, s: seq<Addr>, n: nat)
    requires Segment(m, s, 0) && NoDup(s) && 0 < n <= |s|
    ensures s[n - 1] in m && m[s[n - 1]] == HeadOf(s[n..]) && Chain(m, m[s[n - 1]], s[n..])
  {
    var r := s[n..];
    assert m[s[n - 1]] == LinkOf(s, n - 1, 0) == HeadOf(r);
    forall i | 0 <= i < |r| ensures r[i] != 0 && r[i] in m && m[r[i]] == LinkOf(r, i, 0) {
      assert r[i] == s[n + i] && m[s[n + i]] == LinkOf(s, n + i, 0);
    }
    NoDupSplit(s, n);
  }

  lemma FrontChain(m: map<Addr, Addr>, s: seq<Addr>, n: nat, f: seq<Addr>)
    requires Segment(m, s, 0) && NoDup(f) && 0 < n <= |s| && f == s[..n]
    ensures Chain(m[s[n - 1] := 0], s[0], f)
  {
    var m' := m[s[n - 1] := 0];
    forall i | 0 <= i < n ensures f[i] != 0 && f[i] in m' && m'[f[i]] == LinkOf(f, i, 0) {
      assert f[i] == s[i] && m[s[i]] == LinkOf(s, i, 0);
      assert i < n - 1 ==> f[i] != f[n - 1];
    }
  }

  /** Ending the n-th object's link with null cuts a chain in two. */
  lemma CutChain(m: map<Addr, Addr>, s: seq<Addr>, n: nat)
    requires Segment(m, s, 0) && NoDup(s) && 0 < n <= |s|
    ensures var m' := m[s[n - 1] := 0];
            Chain(m', s[0], s[..n]) && Chain(m', HeadOf(s[n..]), s[n..]) && OnlyAt(m, m', {s[n - 1]})
  {
    RestChain(m, s, n);
    NoDupSplit(s, n);
    FrontChain(m, s, n, s[..n]);
    assert s[..n][n - 1] in s[..n];
    ChainKept(m, m[s[n - 1] := 0], {s[n - 1]}, HeadOf(s[n..]), s[n..]);
  }

  lemma PushChain(m: map<Addr, Addr>, head: Addr, s: seq<Addr>, obj: Addr)
    requires Chain(m, head, s) && obj != 0 && obj !in s
    ensures Chain(m[obj := head], obj, [obj] + s)
  {
    var m', r := m[obj := head], [obj] + s;
    NoDupJoin([obj], s);
    forall i | 0 <= i < |r| ensures r[i] != 0 && r[i] in m' && m'[r[i]] == LinkOf(r, i, 0) {
      if i > 0 {
        assert s[i - 1] in s && m[s[i - 1]] == LinkOf(s, i - 1, 0);
      }
    }
  }

  /** Following `n` links from `a`; reading through a word that is not there is a fault. */
  function Walk(next: map<Addr, Addr>, a: Addr, n: nat): Outcome<Addr>
    decreases n
  {
    if n == 0 then Done(a) else if a !in next then Fault else Walk(next, next[a], n - 1)
  }

  lemma {:induction false} WalkAlong(next: map<Addr, Addr>, s: seq<Addr>, k: nat, n: nat)
    requires Segment(next, s, 0) && 0 !in next && k <= |s|
    ensures Walk(next, HeadOf(s[k..]), n) == if k + n <= |s| then Done(HeadOf(s[k + n..])) else Fault
    decreases n
  {
    if n > 0 && k < |s| {
      WalkAlong(next, s, k + 1, n - 1);
      assert s[k] != 0 && next[s[k]] == LinkOf(s, k, 0) == HeadOf(s[k + 1..]);
    }
  }

  /** The links `PopRange` follows for n: n - 1, on wrapping words, in its loop, and one more. */
  function Links(n: nat): nat
    requires n < WORD
  {
    (n + WORD - 1) % WORD + 1
  }

  /**
   Cutting n objects off a list stays on the list exactly when 1 <= n <= length; for n = 0 the loop
   bound wraps around and the walk runs off the end. The assertion in the source demands the converse,
   n >= length: together they admit n == length only, and never the call that is made when the list has
   outgrown its limit.
   */
  lemma PopRangeExactly(next: map<Addr, Addr>, head: Addr, s: seq<Addr>, n: nat)
    requires Chain(next, head, s) && 0 !in next && n < WORD && |s| < WORD
    ensures Walk(next, head, Links(n)).Done? <==> 1 <= n <= |s|
    ensures 1 <= n <= |s| ==> Walk(next, head, Links(n)) == Done(HeadOf(s[n..]))
    ensures Walk(next, head, Links(n)).Done? && n >= |s| <==> n == |s| > 0
  {
    var links := LinksAre(n);
    assert s[0..] == s;
    WalkAlong(next, s, 0, links);
  }

  lemma LinksAre(n: nat) returns (links: nat)
    requires n < WORD
    ensures links == Links(n) && links == if n == 0 then WORD else n
  {
    links := Links(n);
  }

  class LinkedFreeList {
    const mem: Memory
    var head: Addr
    var size: nat
    var maxSize: nat
    ghost var items: seq<Addr>

    ghost predicate Valid()
      reads this, mem
    {
      Chain(mem.next, head, items) && size == |items|
    }

    constructor (m: Memory)
      ensures mem == m && Valid() && items == [] && maxSize == 1
    {
      mem, head, size, maxSize, items := m, 0, 0, 1, [];
    }

    method Push(obj: Addr)
      requires Valid() && obj != 0 && obj !in items
      modifies this`head, this`size, this`items, mem
      ensures Valid() && items == [obj] + old(items) && OnlyAt(old(mem.next), mem.next, {obj})
    {
      PushChain(mem.next, head, items, obj);
      mem.next := mem.next[obj := head];
      head := obj;
      size := size + 1;
      items := [obj] + items;
    }

    method Pop() returns (obj: Addr)
      requires Valid() && items != []
      modifies this`head, this`size, this`items
      ensures Valid() && [obj] + items == old(items)
    {
      obj := head;
      head := mem.next[head];
      size := size - 1;
      RestChain(mem.next, items, 1);
      items := items[1..];
    }

    /** A chain of `n` objects from `start` to `end` goes to the front. */
    method PushRange(start: Addr, end: Addr, n: nat, ghost batch: seq<Addr>, ghost tail: Addr)
      requires Valid() && batch != [] && Segment(mem.next, batch, tail) && NoDup(batch)
      requires start == batch[0] && end == batch[|batch| - 1] && n == |batch|
      requires forall a :: !(a in batch && a in items)
      modifies this`head, this`size, this`items, mem
      ensures Valid() && items == batch + old(items) && OnlyAt(old(mem.next), mem.next, {end})
    {
      mem.next := mem.next[end := head];
      head := start;
      size := size + n;
      NoDupJoin(batch, items);
      assert forall i :: 0 <= i < |batch| - 1 ==> batch[i] != end;
      assert forall i :: 0 <= i < |items| ==> items[i] in items && end in batch;
      items := batch + items;
    }

    /** Cuts `n` objects off the front, as a chain of their own. */
    method PopRange(n: nat) returns (start: Addr, end: Addr)
      requires Valid() && 1 <= n <= size
      modifies this`head, this`size, this`items, mem
      ensures Valid() && items == old(items)[n..] && OnlyAt(old(mem.next), mem.next, {end})
      ensures Chain(mem.next, start, old(items)[..n]) && end == old(items)[n - 1]
    {
      start, end := head, head;
      var i := 0;
      while i < n - 1
        invariant 0 <= i < n && end == items[i] && unchanged(this) && unchanged(mem)
      {
        assert items[i] != 0;
        end := mem.next[end];
        i := i + 1;
      }
      RestChain(mem.next, items, n);
      CutChain(mem.next, items, n);
      head := mem.next[end];
      mem.next := mem.next[end := 0];
      size := size - n;
      items := items[n..];
    }
  }

  /** The walk of `fetch_range_obj`: up to `num` objects off a span's chain. */
  method FetchRange(mem: Memory, objlist: Addr, num: nat, ghost s: seq<Addr>)
    returns (start: Addr, end: Addr, actual: nat, rest: Addr)
    requires Chain(mem.next, objlist, s) && s != [] && num > 0
    modifies mem
    ensures actual == if num < |s| then num else |s|
    ensures Chain(mem.next, start, s[..actual]) && end == s[actual - 1]
    ensures Chain(mem.next, rest, s[actual..]) && OnlyAt(old(mem.next), mem.next, {end})
  {
    start, end, actual := objlist, objlist, 1;
    var i := 0;
    while i < num - 1
      invariant 0 <= i < num && 1 <= actual <= |s| && actual == i + 1 && end == s[actual - 1]
      invariant unchanged(mem)
    {
      RestChain(mem.next, s, actual);
      assert s[actual - 1] != 0 && (actual < |s| ==> s[actual] != 0);
      if mem.next[end] == 0 { break; }
      actual := actual + 1;
      end := mem.next[end];
      i := i + 1;
    }
    RestChain(mem.next, s, actual);
    CutChain(mem.next, s, actual);
    rest := mem.next[end];
    mem.next := mem.next[end := 0];
  }

  /** The bytes an object may take before the carving loop stops: its guard, per variant. */
  predicate Admits(v: Variant, start: nat, size: nat, end: nat) {
    if v.carve.Intended? then start + size <= end else start < end
  }

  function Slot(base: nat, size: nat, k: nat): nat {
    base + k * size
  }

  lemma SlotNext(base: nat, size: nat, k: nat)
    ensures Slot(base, size, k + 1) == Slot(base, size, k) + size
  {
    Distribute(k, 1, size);
  }

  /** The guard lets object number k through exactly when fewer than the count are carved. */
  lemma AdmitsCount(v: Variant, base: nat, bytes: nat, size: nat, k: nat)
    requires size > 0
    ensures Admits(v, Slot(base, size, k), size, base + bytes) <==> k < CarveCount(v, bytes, size)
  {
    var n := CarveCount(v, bytes, size);
    CountBounds(v, bytes, size);
    if k < n {
      Multiple(k, n, size);
    } else if n < k {
      Multiple(n, k, size);
    }
  }

  /** The first k objects are linked, the last of them not yet. */
  ghost predicate LinkedUpTo(next: map<Addr, Addr>, s: seq<Addr>, k: nat) {
    forall i :: 0 <= i < k - 1 && k <= |s| ==> s[i] in next && next[s[i]] == s[i + 1]
  }

  lemma LinkNext(next: map<Addr, Addr>, s: seq<Addr>, k: nat)
    requires LinkedUpTo(next, s, k) && 0 < k < |s| && NoDup(s)
    ensures LinkedUpTo(next[s[k - 1] := s[k]], s, k + 1)
  {
  }

  lemma LinkLast(next: map<Addr, Addr>, s: seq<Addr>)
    requires LinkedUpTo(next, s, |s|) && s != [] && NoDup(s) && 0 !in s
    ensures Chain(next[s[|s| - 1] := 0], s[0], s)
  {
    var m := next[s[|s| - 1] := 0];
    forall i | 0 <= i < |s| ensures s[i] != 0 && s[i] in m && m[s[i]] == LinkOf(s, i, 0) {
      assert s[i] in s;
    }
  }

  /** Where the objects of a span lie, and how many there are. */
  lemma CarvedSlots(v: Variant, sp: Span)
    requires sp.page > 0 && 0 < sp.objsize <= Bytes(sp)
    ensures var s := Carved(v, sp);
            && |s| == CarveCount(v, Bytes(sp), sp.objsize) > 0 && NoDup(s) && 0 !in s
            && (forall i :: 0 <= i < |s| ==> s[i] == Slot(sp.page * PAGESIZE, sp.objsize, i))
  {
    CarvedList(v, sp);
    ObjectsAt(sp.page * PAGESIZE, sp.objsize, CarveCount(v, Bytes(sp), sp.objsize));
    if 0 in Carved(v, sp) {
      CarvedStarts(v, sp, 0);
    }
  }

  /** The carving loop of `get_one_Span`: chains what the carved sequence says, and nothing else. */
  method CarveLoop(v: Variant, mem: Memory, sp: Span) returns (objlist: Addr)
    requires sp.page > 0 && 0 < sp.objsize <= Bytes(sp)
    modifies mem
    ensures Chain(mem.next, objlist, Carved(v, sp))
    ensures OnlyAt(old(mem.next), mem.next, Elems(Carved(v, sp)))
  {
    var base, bytes, size := sp.page * PAGESIZE, Bytes(sp), sp.objsize;
    CarvedSlots(v, sp);
    ghost var s, k := Carved(v, sp), 1;
    objlist := base;
    SlotNext(base, size, 0);
    var start, tail := base + size, objlist;
    while Admits(v, start, size, base + bytes)
      invariant 1 <= k <= |s| && start == Slot(base, size, k) && tail == s[k - 1]
      invariant LinkedUpTo(mem.next, s, k)
      invariant OnlyAt(old(mem.next), mem.next, Elems(s))
      decreases |s| - k
    {
      AdmitsCount(v, base, bytes, size, k);
      LinkNext(mem.next, s, k);
      SlotNext(base, size, k);
      mem.next := mem.next[tail := start];
      tail := mem.next[tail];
      start := start + size;
      k := k + 1;
    }
    AdmitsCount(v, base, bytes, size, k);
    LinkLast(mem.next, s);
    mem.next := mem.next[tail := 0];
  }
}
