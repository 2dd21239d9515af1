/** Steps that take or give up a lock, walk a list, or look a tag up. */
module AllocatorQuietSteps {
  import opened Basics
  import opened SizeClass
  import opened PageHeap
  import opened PageHeapInvariant
  import opened Allocator
  import opened AllocatorInvariant
  import opened AllocatorFrames

  /** Neither the thread's hand nor the span it carries changes. */
  ghost predicate SameLoad(k: Setup, p: Pc, q: Pc) {
    && Hand(q) == Hand(p) && (Hand(p) == [] || HandClass(q) == HandClass(p))
    && Carries(q) == Carries(p) && (Uncut(q) <==> Uncut(p)) && !p.TakeObjs?
    && forall sp: Span :: Carries(p).Some? && CarriedOk(k, sp, p) ==> CarriedOk(k, sp, q)
  }

  lemma TakeBucketMoves(k: Setup, s: State, t: Tid, q: Pc, c: nat)
    requires LocksOk(s) && t in s.pc && c < NFREELIST && s.bucketLock[c].None? && SameLoad(k, s.pc[t], q)
    requires HoldsBucket(s.pc[t]).None? && HoldsBucket(q) == Some(c) && !HoldsPage(s.pc[t]) && !HoldsPage(q)
    ensures var s' := TakeBucketLock(s, t, c, q); Silent(k, s, s', t) && LocksFollow(s, s', t)
  {
  }

  lemma TakeBucketStep(k: Setup, s: State, w: Witness, t: Tid, q: Pc, c: nat)
    requires Inv(k, s, w) && t in s.pc && c < NFREELIST && s.bucketLock[c].None? && SameLoad(k, s.pc[t], q)
    requires HoldsBucket(s.pc[t]).None? && HoldsBucket(q) == Some(c) && !HoldsPage(s.pc[t]) && !HoldsPage(q)
    requires PcOk(k, TakeBucketLock(s, t, c, q), w.own, t, q)
    ensures Inv(k, TakeBucketLock(s, t, c, q), w)
  {
    TakeBucketMoves(k, s, t, q, c);
    SilentStep(k, s, TakeBucketLock(s, t, c, q), w, t);
  }

  lemma GiveBucketMoves(k: Setup, s: State, t: Tid, q: Pc, c: nat)
    requires LocksOk(s) && t in s.pc && c < NFREELIST && SameLoad(k, s.pc[t], q)
    requires HoldsBucket(s.pc[t]) == Some(c) && HoldsBucket(q).None? && !HoldsPage(s.pc[t]) && !HoldsPage(q)
    ensures var s' := SetPc(SetBucketLock(s, c, None), t, q); Silent(k, s, s', t) && LocksFollow(s, s', t)
  {
  }

  lemma GiveBucketStep(k: Setup, s: State, w: Witness, t: Tid, q: Pc, c: nat)
    requires Inv(k, s, w) && t in s.pc && c < NFREELIST && SameLoad(k, s.pc[t], q)
    requires HoldsBucket(s.pc[t]) == Some(c) && HoldsBucket(q).None? && !HoldsPage(s.pc[t]) && !HoldsPage(q)
    requires PcOk(k, SetPc(SetBucketLock(s, c, None), t, q), w.own, t, q)
    ensures Inv(k, SetPc(SetBucketLock(s, c, None), t, q), w)
  {
    GiveBucketMoves(k, s, t, q, c);
    SilentStep(k, s, SetPc(SetBucketLock(s, c, None), t, q), w, t);
  }

  lemma TakePageMoves(k: Setup, s: State, t: Tid, q: Pc)
    requires LocksOk(s) && t in s.pc && s.pageLock.None? && SameLoad(k, s.pc[t], q)
    requires HoldsBucket(s.pc[t]) == HoldsBucket(q) && HoldsPage(q)
    ensures Silent(k, s, TakePageLock(s, t, q), t) && LocksFollow(s, TakePageLock(s, t, q), t)
  {
    assert !HoldsPage(s.pc[t]);
  }

  lemma TakePageStep(k: Setup, s: State, w: Witness, t: Tid, q: Pc)
    requires Inv(k, s, w) && t in s.pc && s.pageLock.None? && SameLoad(k, s.pc[t], q)
    requires HoldsBucket(s.pc[t]) == HoldsBucket(q) && HoldsPage(q)
    requires PcOk(k, TakePageLock(s, t, q), w.own, t, q)
    ensures Inv(k, TakePageLock(s, t, q), w)
  {
    TakePageMoves(k, s, t, q);
    SilentStep(k, s, TakePageLock(s, t, q), w, t);
  }

  lemma GivePageMoves(k: Setup, s: State, t: Tid, q: Pc)
    requires LocksOk(s) && t in s.pc && SameLoad(k, s.pc[t], q)
    requires HoldsBucket(s.pc[t]) == HoldsBucket(q) && HoldsPage(s.pc[t]) && !HoldsPage(q)
    ensures var s' := SetPc(s.(pageLock := None), t, q); Silent(k, s, s', t) && LocksFollow(s, s', t)
  {
  }

  lemma GivePageStep(k: Setup, s: State, w: Witness, t: Tid, q: Pc)
    requires Inv(k, s, w) && t in s.pc && SameLoad(k, s.pc[t], q)
    requires HoldsBucket(s.pc[t]) == HoldsBucket(q) && HoldsPage(s.pc[t]) && !HoldsPage(q)
    requires PcOk(k, SetPc(s.(pageLock := None), t, q), w.own, t, q)
    ensures Inv(k, SetPc(s.(pageLock := None), t, q), w)
  {
    GivePageMoves(k, s, t, q);
    SilentStep(k, s, SetPc(s.(pageLock := None), t, q), w, t);
  }

  lemma StayMoves(k: Setup, s: State, t: Tid, q: Pc)
    requires LocksOk(s) && t in s.pc && SameLoad(k, s.pc[t], q)
    requires HoldsBucket(s.pc[t]) == HoldsBucket(q) && (HoldsPage(s.pc[t]) <==> HoldsPage(q))
    ensures Silent(k, s, SetPc(s, t, q), t) && LocksFollow(s, SetPc(s, t, q), t)
  {
  }

  lemma StayStep(k: Setup, s: State, w: Witness, t: Tid, q: Pc)
    requires Inv(k, s, w) && t in s.pc && SameLoad(k, s.pc[t], q)
    requires HoldsBucket(s.pc[t]) == HoldsBucket(q) && (HoldsPage(s.pc[t]) <==> HoldsPage(q))
    requires PcOk(k, SetPc(s, t, q), w.own, t, q)
    ensures Inv(k, SetPc(s, t, q), w)
  {
    StayMoves(k, s, t, q);
    SilentStep(k, s, SetPc(s, t, q), w, t);
  }

  /** An object in a thread's hand belongs to a published span, and its page is tagged with it. */
  lemma HeldLookup(k: Setup, s: State, w: Witness, t: Tid, a: Addr) returns (id: SpanId)
    requires Inv(k, s, w) && t in s.pc && a in Hand(s.pc[t])
    ensures PageOf(a) in w.own && w.own[PageOf(a)] == id
    ensures Get(s.heap, PageOf(a)) == Some(id)
  {
    assert Holds(s, InHand(t), a);
    id := w.own[PageOf(a)];
    assert SpanOk(k, s, w, id);
    assert Within(s.heap.spans[id], PageOf(a));
  }

  lemma {:induction false} FirstFound(spans: map<SpanId, Span>, l: seq<SpanId>)
    ensures var o := FirstWithObjects(spans, l);
            o.Some? ==> o.value in l && o.value in spans && spans[o.value].objlist != []
  {
    if l != [] && !(l[0] in spans && spans[l[0]].objlist != []) {
      FirstFound(spans, l[1..]);
    }
  }

  lemma ScanFound(k: Setup, s: State, w: Witness, t: Tid, size: nat, c: nat, num: nat, id: SpanId)
    requires Inv(k, s, w) && t in s.pc && s.pc[t] == FetchScan(size, c, num) && PcOk(k, s, w.own, t, s.pc[t])
    requires Takable(s, TakeObjs(size, c, num, id))
    ensures Inv(k, SetPc(s, t, TakeObjs(size, c, num, id)), w)
  {
    StayStep(k, s, w, t, TakeObjs(size, c, num, id));
  }

  lemma ScanNone(k: Setup, s: State, w: Witness, t: Tid, size: nat, c: nat, num: nat)
    requires Inv(k, s, w) && t in s.pc && s.pc[t] == FetchScan(size, c, num) && PcOk(k, s, w.own, t, s.pc[t])
    ensures Inv(k, SetPc(SetBucketLock(s, c, None), t, SpanLock(size, c, num)), w)
  {
    GiveBucketStep(k, s, w, t, SpanLock(size, c, num), c);
  }

  lemma ScanStep(k: Setup, s: State, w: Witness, t: Tid, size: nat, c: nat, num: nat)
    requires Inv(k, s, w) && t in s.pc && s.pc[t] == FetchScan(size, c, num)
    ensures c < NFREELIST && Inv(k, StepScan(s, t, size, c, num), w)
  {
    assert PcOk(k, s, w.own, t, s.pc[t]);
    FirstFound(s.heap.spans, s.lists[c]);
    match FirstWithObjects(s.heap.spans, s.lists[c])
    case Some(id) => ScanFound(k, s, w, t, size, c, num, id);
    case None => ScanNone(k, s, w, t, size, c, num);
  }

  lemma LookupStep(k: Setup, s: State, w: Witness, t: Tid, obj: Addr)
    requires Inv(k, s, w) && t in s.pc && s.pc[t] == Lookup(obj)
    ensures Inv(k, StepLookup(s, t, obj), w)
  {
    assert PcOk(k, s, w.own, t, s.pc[t]);
    var id := HeldLookup(k, s, w, t, obj);
    GivePageStep(k, s, w, t, Dealloc(obj, id));
  }

  lemma ReturnGetStep(k: Setup, s: State, w: Witness, t: Tid, c: nat, chain: seq<Addr>)
    requires Inv(k, s, w) && t in s.pc && s.pc[t] == ReturnGet(c, chain)
    ensures Inv(k, StepReturnGet(s, t, c, chain), w)
  {
    assert PcOk(k, s, w.own, t, s.pc[t]);
    var id := HeldLookup(k, s, w, t, chain[0]);
    GivePageStep(k, s, w, t, ReturnPut(c, chain, id));
  }

  lemma FetchLockStep(k: Setup, s: State, w: Witness, t: Tid, size: nat, c: nat, num: nat)
    requires Inv(k, s, w) && t in s.pc && s.pc[t] == FetchLock(size, c, num)
    ensures c < NFREELIST
    ensures s.bucketLock[c].None? ==> Inv(k, TakeBucketLock(s, t, c, FetchScan(size, c, num)), w)
  {
    assert PcOk(k, s, w.own, t, s.pc[t]);
    if s.bucketLock[c].None? {
      TakeBucketStep(k, s, w, t, FetchScan(size, c, num), c);
    }
  }

  lemma PublishLockStep(k: Setup, s: State, w: Witness, t: Tid, size: nat, c: nat, num: nat, id: SpanId)
    requires Inv(k, s, w) && t in s.pc && s.pc[t] == PublishLock(size, c, num, id)
    ensures c < NFREELIST
    ensures s.bucketLock[c].None? ==> Inv(k, TakeBucketLock(s, t, c, Publish(size, c, num, id)), w)
  {
    assert PcOk(k, s, w.own, t, s.pc[t]);
    if s.bucketLock[c].None? {
      TakeBucketStep(k, s, w, t, Publish(size, c, num, id), c);
    }
  }

  lemma ReturnLockStep(k: Setup, s: State, w: Witness, t: Tid, c: nat, chain: seq<Addr>)
    requires Inv(k, s, w) && t in s.pc && s.pc[t] == ReturnLock(c, chain)
    ensures c < NFREELIST
    ensures s.bucketLock[c].None? ==> Inv(k, SetPc(SetBucketLock(s, c, Some(t)), t, ReturnNext(c, chain)), w)
  {
    assert PcOk(k, s, w.own, t, s.pc[t]);
    if s.bucketLock[c].None? {
      TakeBucketStep(k, s, w, t, ReturnNext(c, chain), c);
    }
  }

  lemma SpanLockStep(k: Setup, s: State, w: Witness, t: Tid, size: nat, c: nat, num: nat)
    requires Inv(k, s, w) && t in s.pc && s.pc[t] == SpanLock(size, c, num) && s.pageLock.None?
    ensures Inv(k, TakePageLock(s, t, SpanNew(size, c, num)), w)
  {
    assert PcOk(k, s, w.own, t, s.pc[t]);
    TakePageStep(k, s, w, t, SpanNew(size, c, num));
  }

  lemma LookupLockStep(k: Setup, s: State, w: Witness, t: Tid, obj: Addr)
    requires Inv(k, s, w) && t in s.pc && s.pc[t] == LookupLock(obj) && s.pageLock.None?
    ensures Inv(k, TakePageLock(s, t, Lookup(obj)), w)
  {
    assert PcOk(k, s, w.own, t, s.pc[t]);
    TakePageStep(k, s, w, t, Lookup(obj));
  }

  lemma GiveLockStep(k: Setup, s: State, w: Witness, t: Tid, c: nat, chain: seq<Addr>, id: SpanId)
    requires Inv(k, s, w) && t in s.pc && s.pc[t] == GiveLock(c, chain, id) && s.pageLock.None?
    ensures Inv(k, TakePageLock(s, t, Give(c, chain, id)), w)
  {
    assert PcOk(k, s, w.own, t, s.pc[t]);
    TakePageStep(k, s, w, t, Give(c, chain, id));
  }

  lemma ReturnNextStep(k: Setup, s: State, w: Witness, t: Tid, c: nat, chain: seq<Addr>)
    requires Inv(k, s, w) && t in s.pc && s.pc[t] == ReturnNext(c, chain)
    ensures c < NFREELIST
    ensures chain == [] ==> Inv(k, SetPc(SetBucketLock(s, c, None), t, Idle), w)
    ensures chain != [] && s.pageLock.None? ==> Inv(k, TakePageLock(s, t, ReturnGet(c, chain)), w)
  {
    assert PcOk(k, s, w.own, t, s.pc[t]);
    if chain == [] {
      GiveBucketStep(k, s, w, t, Idle, c);
    } else if s.pageLock.None? {
      TakePageStep(k, s, w, t, ReturnGet(c, chain));
    }
  }
}
