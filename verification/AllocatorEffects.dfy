/**
 What each operation of the three caches takes, gives and leaves, stated on the state before and after
 the step. These are the choices that safety alone leaves open: which span serves a fetch, how large a
 batch is, in what order objects move, and how the slow start grows.
 */
module AllocatorEffects {
  import opened Basics
  import opened SizeClass
  import opened PageHeap
  import opened PageHeapInvariant
  import opened Allocator
  import opened AllocatorInvariant
  import opened AllocatorRuns
  import opened AllocatorSafety
  import opened AllocatorRequests

  function Lesser(a: nat, b: nat): nat {
    if a < b then a else b
  }

  /** The span has an object to give. */
  predicate Gives(s: State, id: SpanId) {
    id in s.heap.spans && s.heap.spans[id].objlist != []
  }

  /** Span number `i` of the list is the first that gives. */
  predicate FirstGiving(s: State, l: seq<SpanId>, i: nat) {
    i < |l| && Gives(s, l[i]) && forall j :: 0 <= j < i ==> !Gives(s, l[j])
  }

  predicate NoneGives(s: State, l: seq<SpanId>) {
    forall j :: 0 <= j < |l| ==> !Gives(s, l[j])
  }

  lemma {:induction false} WalkIs(s: State, l: seq<SpanId>) returns (i: nat)
    ensures i <= |l| && (i < |l| ==> FirstGiving(s, l, i)) && (i == |l| ==> NoneGives(s, l))
    ensures FirstWithObjects(s.heap.spans, l) == if i < |l| then Some(l[i]) else None
  {
    i := 0;
    if l != [] && !Gives(s, l[0]) {
      var rest := l[1..];
      i := WalkIs(s, rest);
      assert forall j :: 0 < j < |l| ==> l[j] == rest[j - 1];
      i := i + 1;
    }
  }

  lemma OneFirst(s: State, l: seq<SpanId>, i: nat, j: nat)
    requires FirstGiving(s, l, i) && FirstGiving(s, l, j)
    ensures i == j
  {
  }

  /**
   The bucket walk of `get_one_Span` stays with the first listed span that has an object, and gives the
   bucket lock up to fetch a new span exactly when no listed span has one.
   */
  lemma ScanExactly(v: Variant, s: State, t: Tid, ev: Event)
    requires Enabled(v, s, t, ev) && s.pc[t].FetchScan? && s.pc[t].size > 0 && s.pc[t].c < NFREELIST
    ensures var pc, s' := s.pc[t], Do(v, s, t, ev);
            && (forall i: nat :: FirstGiving(s, s.lists[pc.c], i) ==>
                  s' == s.(pc := s.pc[t := TakeObjs(pc.size, pc.c, pc.num, s.lists[pc.c][i])]))
            && (NoneGives(s, s.lists[pc.c]) ==>
                  s' == s.(pc := s.pc[t := SpanLock(pc.size, pc.c, pc.num)], bucketLock := s.bucketLock[pc.c := None]))
            && (s'.pc[t].SpanLock? <==> NoneGives(s, s.lists[pc.c]))
  {
    var l := s.lists[s.pc[t].c];
    var k := WalkIs(s, l);
    StepIs(v, s, t, ev);
    forall i: nat | FirstGiving(s, l, i) ensures i == k {
      if k < |l| { OneFirst(s, l, i, k); }
    }
  }

  /** Allocation from the thread's own list: its first object, and nothing else moves. */
  lemma PopExactly(v: Variant, s: State, t: Tid, size: nat)
    requires Reachable(v, s) && Enabled(v, s, t, Alloc(size)) && s.pc[t].Idle?
    requires Cache(s, t)[ClassOf(size)].items != []
    ensures var c, l, s' := ClassOf(size), Cache(s, t)[ClassOf(size)], Do(v, s, t, Alloc(size));
            s' == s.(live := s.live[l.items[0] := RoundUp(size)],
                     caches := s.caches[t := Cache(s, t)[c := FreeList(l.items[1..], |l.items| - 1, l.maxSize)]])
  {
    RoundUpIsClassSize(size);
    ListSize(v, s, t, ClassOf(size));
  }

  lemma ListSize(v: Variant, s: State, t: Tid, c: nat)
    requires Reachable(v, s) && c < NFREELIST
    ensures Cache(s, t)[c].size == |Cache(s, t)[c].items|
  {
    if t in s.caches {
      FreeListsBounded(v, s, t, c);
    }
  }

  /**
   Allocation with the own list empty: the batch asked for is the lesser of the limit and the ceiling of
   the class, and the limit grows by one exactly when it does not exceed the ceiling.
   */
  lemma FetchExactly(v: Variant, s: State, t: Tid, size: nat)
    requires Enabled(v, s, t, Alloc(size)) && s.pc[t].Idle? && Cache(s, t)[ClassOf(size)].items == []
    ensures RoundUp(size) > 0
    ensures var c, l, s' := ClassOf(size), Cache(s, t)[ClassOf(size)], Do(v, s, t, Alloc(size));
            var ceiling := NumMoveSize(RoundUp(size));
            && s'.pc[t] == FetchLock(RoundUp(size), c, Lesser(ceiling, l.maxSize))
            && Cache(s', t)[c] == FreeList([], l.size, if l.maxSize <= ceiling then l.maxSize + 1 else l.maxSize)
            && (forall d :: 0 <= d < NFREELIST && d != c ==> Cache(s', t)[d] == Cache(s, t)[d])
            && s' == s.(pc := s'.pc, caches := s'.caches)
  {
    RoundUpIsClassSize(size);
  }

  /** `fetch_range_obj` cuts the first objects off the span, as many as asked for or as there are. */
  lemma TakeExactly(v: Variant, s: State, t: Tid, ev: Event)
    requires Enabled(v, s, t, ev) && s.pc[t].TakeObjs? && s.pc[t].size > 0 && s.pc[t].c < NFREELIST && s.pc[t].num > 0
    requires Gives(s, s.pc[t].id)
    ensures var pc, sp, s' := s.pc[t], s.heap.spans[s.pc[t].id], Do(v, s, t, ev);
            var k := Lesser(pc.num, |sp.objlist|);
            && s'.pc[t] == Deliver(pc.size, pc.c, sp.objlist[..k])
            && s'.heap.spans == s.heap.spans[pc.id := sp.(objlist := sp.objlist[k..], usecount := sp.usecount + k)]
            && s'.bucketLock == s.bucketLock[pc.c := None]
            && s'.lists == s.lists && s'.caches == s.caches && s'.live == s.live && s'.pageLock == s.pageLock
  {
    StepIs(v, s, t, ev);
  }

  /** The first object fetched goes to the caller, the others in order to the front of the thread's list. */
  lemma DeliverExactly(v: Variant, s: State, t: Tid, ev: Event)
    requires Enabled(v, s, t, ev) && s.pc[t].Deliver? && s.pc[t].size > 0 && s.pc[t].c < NFREELIST && s.pc[t].got != []
    ensures var pc, l, s' := s.pc[t], Cache(s, t)[s.pc[t].c], Do(v, s, t, ev);
            && s'.live == s.live[pc.got[0] := pc.size]
            && Cache(s', t)[pc.c] == FreeList(pc.got[1..] + l.items, |pc.got| - 1 + l.size, l.maxSize)
            && s'.caches == s.caches[t := Cache(s, t)[pc.c := Cache(s', t)[pc.c]]]
            && s'.pc == s.pc[t := Idle] && s'.heap == s.heap && s'.lists == s.lists
  {
    StepIs(v, s, t, ev);
  }

  /** The thread's list with the freed object in front. */
  function Pushed(s: State, t: Tid, c: nat, obj: Addr): seq<Addr>
    requires c < NFREELIST
  {
    [obj] + Cache(s, t)[c].items
  }

  /**
   A freed object goes to the front of the thread's list of its span's class. When the list then exceeds
   its limit, and only then, its first `limit` objects leave, in order.
   */
  lemma DeallocExactly(v: Variant, s: State, t: Tid, ev: Event) returns (c: nat)
    requires Reachable(v, s) && Enabled(v, s, t, ev) && s.pc[t].Dealloc?
    ensures c < NFREELIST && s.pc[t].id in s.heap.spans && ValidSize(s.heap.spans[s.pc[t].id].objsize)
    ensures Index(s.heap.spans[s.pc[t].id].objsize) == c
    ensures var all, l, s' := Pushed(s, t, c, s.pc[t].obj), Cache(s, t)[c], Do(v, s, t, ev);
            if |all| > l.maxSize then
              && s'.pc == s.pc[t := ReturnLock(c, all[..l.maxSize])]
              && s'.caches == s.caches[t := Cache(s, t)[c := FreeList(all[l.maxSize..], |all| - l.maxSize, l.maxSize)]]
            else
              && s'.pc == s.pc[t := Idle]
              && s'.caches == s.caches[t := Cache(s, t)[c := FreeList(all, |all|, l.maxSize)]]
    ensures var s' := Do(v, s, t, ev); s'.live == s.live && s'.heap == s.heap && s'.lists == s.lists
  {
    c := FreedTo(v, s, t);
    CutIs(s, t, s.pc[t].obj, s.pc[t].id, c);
    DeallocIsStep(v, s, t, ev);
  }

  lemma FreedTo(v: Variant, s: State, t: Tid) returns (c: nat)
    requires Reachable(v, s) && t in s.pc && s.pc[t].Dealloc?
    ensures c < NFREELIST && t in s.caches && s.pc[t].id in s.heap.spans
    ensures ValidSize(s.heap.spans[s.pc[t].id].objsize) && Index(s.heap.spans[s.pc[t].id].objsize) == c
    ensures s.caches[t][c].size == |s.caches[t][c].items| && s.caches[t][c].maxSize > 0
  {
    var k, w := ReachableInv(v, s);
    c := BatchFacts(k, s, w, t, s.pc[t].obj, s.pc[t].id);
  }

  lemma CutIs(s: State, t: Tid, obj: Addr, id: SpanId, c: nat)
    requires t in s.pc && t in s.caches && c < NFREELIST && id in s.heap.spans && ValidSize(s.heap.spans[id].objsize)
    requires Index(s.heap.spans[id].objsize) == c
    requires s.caches[t][c].size == |s.caches[t][c].items| && s.caches[t][c].maxSize > 0
    ensures var all, l, s' := Pushed(s, t, c, obj), Cache(s, t)[c], StepDealloc(s, t, obj, id);
            if |all| > l.maxSize then
              && s'.pc == s.pc[t := ReturnLock(c, all[..l.maxSize])]
              && s'.caches == s.caches[t := Cache(s, t)[c := FreeList(all[l.maxSize..], |all| - l.maxSize, l.maxSize)]]
            else
              && s'.pc == s.pc[t := Idle]
              && s'.caches == s.caches[t := Cache(s, t)[c := FreeList(all, |all|, l.maxSize)]]
    ensures var s' := StepDealloc(s, t, obj, id); s'.live == s.live && s'.heap == s.heap && s'.lists == s.lists
  {
  }

  /** One object goes back to the front of its span; with the last one the span leaves its list, empty. */
  lemma PutExactly(v: Variant, s: State, t: Tid, ev: Event)
    requires Reachable(v, s) && Enabled(v, s, t, ev) && s.pc[t].ReturnPut?
    ensures s.pc[t].chain != [] && s.pc[t].c < NFREELIST && s.pc[t].id in s.heap.spans
    ensures var pc, sp, s' := s.pc[t], s.heap.spans[s.pc[t].id], Do(v, s, t, ev);
            if sp.usecount > 1 then
              && pc.id in s'.heap.spans && s'.heap.spans == s.heap.spans[pc.id := s'.heap.spans[pc.id]]
              && s'.heap.spans[pc.id] == sp.(objlist := [pc.chain[0]] + sp.objlist, usecount := sp.usecount - 1)
              && s'.pc == s.pc[t := ReturnNext(pc.c, pc.chain[1..])]
              && s'.lists == s.lists && s'.bucketLock == s.bucketLock
            else
              && s'.heap.spans == s.heap.spans[pc.id := sp.(objlist := [], usecount := 0)]
              && s'.pc == s.pc[t := GiveLock(pc.c, pc.chain[1..], pc.id)]
              && s'.lists == s.lists[pc.c := Remove(s.lists[pc.c], pc.id)]
              && s'.bucketLock == s.bucketLock[pc.c := None]
    ensures var s' := Do(v, s, t, ev); s'.live == s.live && s'.caches == s.caches
  {
    var k, w := ReachableInv(v, s);
    ReturnedIsOut(k, s, w, t);
    PutIsStep(v, s, t, ev);
  }

  lemma PutIsStep(v: Variant, s: State, t: Tid, ev: Event)
    requires Enabled(v, s, t, ev) && s.pc[t].ReturnPut?
    ensures Do(v, s, t, ev) == StepPut(s, t, s.pc[t].c, s.pc[t].chain, s.pc[t].id)
  {
  }

  /** A new span goes to the front of the list of its class. */
  lemma PublishExactly(v: Variant, s: State, t: Tid, ev: Event)
    requires Enabled(v, s, t, ev) && s.pc[t].Publish? && s.pc[t].size > 0 && s.pc[t].c < NFREELIST
    ensures var pc, s' := s.pc[t], Do(v, s, t, ev);
            && s'.lists == s.lists[pc.c := [pc.id] + s.lists[pc.c]]
            && s' == s.(lists := s'.lists, pc := s.pc[t := TakeObjs(pc.size, pc.c, pc.num, pc.id)])
  {
    StepIs(v, s, t, ev);
  }

  /** The page heap serves the pages of the class; under the same lock the span is marked and sized. */
  lemma NewExactly(v: Variant, s: State, t: Tid, ev: Event)
    requires Reachable(v, s) && Enabled(v, s, t, ev) && s.pc[t].SpanNew?
    ensures s.pc[t].size > 0 && 0 < NumMovePage(s.pc[t].size) < NPAGES
    ensures var pc, s', r := s.pc[t], Do(v, s, t, ev), NewSpan(v, s.heap, NumMovePage(s.pc[t].size), ev.sys);
            && r.Done? && s' == s.(heap := r.value.0, pc := s.pc[t := SpanMark(pc.size, pc.c, pc.num, r.value.1)])
  {
    var k, w := ReachableInv(v, s);
    NoBadClass(k, s, w, t);
    NotCrashed(v, s, t, ev);
    PagesBounded(k, s, w, t);
    StepIs(v, s, t, ev);
  }

  lemma PagesBounded(k: Setup, s: State, w: Witness, t: Tid)
    requires Inv(k, s, w) && t in s.pc && s.pc[t].SpanNew?
    ensures s.pc[t].size > 0 && 0 < NumMovePage(s.pc[t].size) < NPAGES
  {
    assert PcOk(k, s, w.own, t, s.pc[t]);
    ClassTable(s.pc[t].c);
    assert k.size[s.pc[t].c] == ClassSize(s.pc[t].c);
    NumMovePageBounds(s.pc[t].size);
  }

  /** No step crashes. */
  lemma NotCrashed(v: Variant, s: State, t: Tid, ev: Event)
    requires Reachable(v, s) && Enabled(v, s, t, ev)
    ensures t in Do(v, s, t, ev).pc && !Do(v, s, t, ev).pc[t].Crashed?
  {
    var k, w := ReachableInv(v, s);
    var w' := StepKeepsInv(k, s, w, t, ev);
    Moves(v, s, Do(v, s, t, ev), t, ev);
    NoneCrashed(k, Do(v, s, t, ev), w', t);
  }

  lemma NoneCrashed(k: Setup, s: State, w: Witness, t: Tid)
    requires Inv(k, s, w) && t in s.pc
    ensures !s.pc[t].Crashed?
  {
    assert PcOk(k, s, w.own, t, s.pc[t]);
  }

  lemma MarkExactly(v: Variant, s: State, t: Tid, ev: Event)
    requires Enabled(v, s, t, ev) && s.pc[t].SpanMark? && s.pc[t].id in s.heap.spans
    ensures var pc, s' := s.pc[t], Do(v, s, t, ev);
            var marked := s.heap.spans[pc.id].(isUse := true, objsize := pc.size);
            && s'.heap == s.heap.(spans := s.heap.spans[pc.id := marked])
            && s' == s.(heap := s'.heap, pageLock := None, pc := s.pc[t := Carve(pc.size, pc.c, pc.num, pc.id)])
  {
    StepIs(v, s, t, ev);
  }

  /** A lookup finds the live span whose pages the address is in. */
  lemma LookupExactly(v: Variant, s: State, t: Tid, ev: Event)
    requires Reachable(v, s) && Enabled(v, s, t, ev) && s.pc[t].Lookup?
    ensures exists id :: id in s.heap.spans && Within(s.heap.spans[id], PageOf(s.pc[t].obj))
                     && Do(v, s, t, ev) == s.(pageLock := None, pc := s.pc[t := Dealloc(s.pc[t].obj, id)])
  {
    var k, w := ReachableInv(v, s);
    assert PcOk(k, s, w.own, t, s.pc[t]);
    var id := HandSpan(k, s, w, t, s.pc[t].obj);
    AddressFindsSpan(v, s, id, s.pc[t].obj);
    StepIs(v, s, t, ev);
  }

  /** Going back, each object is looked up in its turn. */
  lemma ReturnGetExactly(v: Variant, s: State, t: Tid, ev: Event)
    requires Reachable(v, s) && Enabled(v, s, t, ev) && s.pc[t].ReturnGet?
    ensures s.pc[t].chain != []
    ensures exists id :: id in s.heap.spans && Within(s.heap.spans[id], PageOf(s.pc[t].chain[0]))
                     && Do(v, s, t, ev).pc[t] == ReturnPut(s.pc[t].c, s.pc[t].chain, id)
                     && Do(v, s, t, ev) == s.(pageLock := None, pc := s.pc[t := Do(v, s, t, ev).pc[t]])
  {
    var k, w := ReachableInv(v, s);
    assert PcOk(k, s, w.own, t, s.pc[t]);
    var id := HandSpan(k, s, w, t, s.pc[t].chain[0]);
    AddressFindsSpan(v, s, id, s.pc[t].chain[0]);
    StepIs(v, s, t, ev);
  }

  /** What a thread has in hand lies in a span that is out. */
  lemma HandSpan(k: Setup, s: State, w: Witness, t: Tid, a: Addr) returns (id: SpanId)
    requires Inv(k, s, w) && t in s.pc && a in Hand(s.pc[t])
    ensures IsOut(s.heap, id) && Within(s.heap.spans[id], PageOf(a))
  {
    assert Holds(s, InHand(t), a);
    id := w.own[PageOf(a)];
    assert PlaceOk(s.pc, w.home, w.at[a], id);
  }

  /** The emptied span goes through the page heap's release, and the batch goes on. */
  lemma GiveExactly(v: Variant, s: State, t: Tid, ev: Event)
    requires Reachable(v, s) && Enabled(v, s, t, ev) && s.pc[t].Give?
    ensures s.pc[t].id in s.heap.spans && Release(s.heap, s.pc[t].id).Done?
    ensures var pc, s' := s.pc[t], Do(v, s, t, ev);
            var heap' := Release(s.heap, pc.id).value;
            s' == s.(heap := heap', pageLock := None, pc := s.pc[t := ReturnLock(pc.c, pc.chain)])
  {
    NotCrashed(v, s, t, ev);
    GiveIsStep(v, s, t, ev);
  }

  lemma GiveIsStep(v: Variant, s: State, t: Tid, ev: Event)
    requires Enabled(v, s, t, ev) && s.pc[t].Give?
    ensures Do(v, s, t, ev) == StepGive(s, t, s.pc[t].c, s.pc[t].chain, s.pc[t].id)
  {
  }

  /** A batch ends, with the bucket lock given up, exactly when nothing of it is left. */
  lemma ReturnNextExactly(v: Variant, s: State, t: Tid, ev: Event)
    requires Enabled(v, s, t, ev) && s.pc[t].ReturnNext? && s.pc[t].c < NFREELIST
    ensures var pc, s' := s.pc[t], Do(v, s, t, ev);
            if pc.chain == [] then s' == s.(bucketLock := s.bucketLock[pc.c := None], pc := s.pc[t := Idle])
            else s' == s.(pageLock := Some(t), pc := s.pc[t := ReturnGet(pc.c, pc.chain)])
  {
    StepIs(v, s, t, ev);
  }

  /** A freed block leaves the live set at once, whatever its length. */
  lemma FreeExactly(v: Variant, s: State, t: Tid, obj: Addr)
    requires Enabled(v, s, t, Free(obj)) && s.pc[t].Idle?
    ensures Do(v, s, t, Free(obj)) == s.(live := s.live - {obj}, pc := s.pc[t := LookupLock(obj)])
  {
  }
}
