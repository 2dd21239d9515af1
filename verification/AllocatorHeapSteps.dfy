/** Steps that bring a span in from the page heap and give it back. */
module AllocatorHeapSteps {
  import opened Basics
  import opened SizeClass
  import opened PageHeap
  import opened PageHeapInvariant
  import opened Allocator
  import opened AllocatorInvariant
  import opened AllocatorFrames
  import opened AllocatorSpanSteps

  /** A page-heap operation on `id` as the rest of the allocator sees it. */
  ghost predicate HeapMove(h: Heap, h': Heap, own: map<nat, SpanId>, own': map<nat, SpanId>, id: SpanId) {
    && OthersKept(h, h', own, id)
    && forall p :: p in own && own[p] != id && IsOut(h, own[p]) ==> p in own' && own'[p] == own[p]
  }

  lemma TaggedKept(h: Heap, h': Heap, own: map<nat, SpanId>, id: SpanId, j: SpanId)
    requires Partition(h, own) && OthersKept(h, h', own, id) && j != id && IsOut(h, j) && FullyTagged(h, j)
    ensures j in h'.spans && h'.spans[j] == h.spans[j] && FullyTagged(h', j)
  {
    assert IsOut(h', j);
    forall p: nat | Within(h'.spans[j], p) ensures p in h'.tags && h'.tags[p] == j {
      assert Within(h.spans[j], p) && own[p] == j;
    }
  }

  lemma MoveSpans(k: Setup, s: State, s': State, w: Witness, w': Witness, t: Tid, id: SpanId)
    requires Partition(s.heap, w.own) && HeapMove(s.heap, s'.heap, w.own, w'.own, id)
    requires SpansOk(k, s, w) && HomesOk(s, w.home) && LocksOk(s) && LocksOk(s') && OneMoves(s, s', t) &&
      !s.pc[t].TakeObjs?
    requires Carries(s.pc[t]) == Some(id) || Carries(s.pc[t]).None?
    requires forall j :: j in w.home && j != id ==> SameEntry(w, w', j)
    requires forall j :: j in w'.home ==> j == id || j in w.home
    requires id in w'.home ==> SpanOk(k, s', w', id)
    ensures SpansOk(k, s', w')
  {
    CarriesAtMost(s, w, t, id);
    forall j | j in w'.home && j != id ensures SpanOk(k, s', w', j) {
      assert SpanOk(k, s, w, j) && SameEntry(w, w', j);
      TaggedKept(s.heap, s'.heap, w.own, id, j);
      SpanSame(k, s, s', w, w', t, j);
    }
  }

  /** A span in a bucket has no objects. */
  lemma NoObjectsInBuckets(h: Heap, j: SpanId)
    requires BucketsOk(h) && !IsOut(h, j)
    ensures j in h.spans ==> h.spans[j].objlist == []
  {
    assert j in h.spans ==> j in h.buckets[h.spans[j].npage];
  }

  lemma MoveAgree(s: State, s': State, at: map<Addr, Place>, own: map<nat, SpanId>, t: Tid, id: SpanId)
    requires AgreeOk(s, at) && NoDupsOk(s) && OneMoves(s, s', t) && OthersKept(s.heap, s'.heap, own, id)
    requires BucketsOk(s.heap) && BucketsOk(s'.heap) && s'.caches == s.caches && s'.live == s.live
    requires Hand(s'.pc[t]) == Hand(s.pc[t])
    requires id in s.heap.spans ==> s.heap.spans[id].objlist == []
    requires id in s'.heap.spans ==> s'.heap.spans[id].objlist == []
    ensures AgreeOk(s', at) && NoDupsOk(s')
  {
    forall j | j in s'.heap.spans && s'.heap.spans[j].objlist != []
      ensures j in s.heap.spans && s.heap.spans[j] == s'.heap.spans[j]
    {
      if !IsOut(s'.heap, j) {
        NoObjectsInBuckets(s'.heap, j);
      } else {
        assert IsOut(s.heap, j);
      }
    }
    forall j | j in s.heap.spans && s.heap.spans[j].objlist != []
      ensures j in s'.heap.spans && s.heap.spans[j] == s'.heap.spans[j]
    {
      if !IsOut(s.heap, j) {
        NoObjectsInBuckets(s.heap, j);
      } else {
        assert IsOut(s'.heap, j);
      }
    }
    forall l, a ensures Holds(s', l, a) <==> Holds(s, l, a) {
    }
  }

  /** Pages that hold objects keep their owner. */
  lemma MoveOwners(s: State, w: Witness, own': map<nat, SpanId>, h': Heap, id: SpanId)
    requires CoverOk(w) && HeapMove(s.heap, h', w.own, own', id) && id !in w.objs
    requires forall j :: j in w.home ==> IsOut(s.heap, j)
    ensures forall a :: a in w.at ==> PageOf(a) in w.own && PageOf(a) in own' && own'[PageOf(a)] == w.own[PageOf(a)]
  {
  }

  lemma MoveCover(w: Witness, w': Witness)
    requires CoverOk(w) && w'.objs == w.objs && w'.at == w.at && w.objs.Keys <= w'.home.Keys
    requires forall a :: a in w.at ==>
      PageOf(a) in w.own && PageOf(a) in w'.own && w'.own[PageOf(a)] == w.own[PageOf(a)]
    ensures CoverOk(w')
  {
  }

  lemma MovePlaces(s: State, s': State, w: Witness, w': Witness, t: Tid, id: SpanId)
    requires PlacesOk(s, w) && CoverOk(w) && OneMoves(s, s', t) && HandClass(s'.pc[t]) == HandClass(s.pc[t])
    requires w'.at == w.at && id !in w.objs
    requires forall j :: j in w.home && j != id ==> SameEntry(w, w', j)
    requires forall a :: a in w.at ==>
      PageOf(a) in w.own && PageOf(a) in w'.own && w'.own[PageOf(a)] == w.own[PageOf(a)]
    ensures PlacesOk(s', w')
  {
    forall a | a in w'.at ensures PlaceOk(s'.pc, w'.home, w'.at[a], w'.own[PageOf(a)]) {
      var j := w.own[PageOf(a)];
      assert PlaceOk(s.pc, w.home, w.at[a], j);
      assert j in w.objs && j in w.home && SameEntry(w, w', j);
    }
  }

  lemma MoveLaid(v: Variant, h: Heap, h': Heap, w: Witness, own': map<nat, SpanId>, id: SpanId)
    requires LaidOut(v, h, w.objs) && CoverOk(w) && HeapMove(h, h', w.own, own', id) && id !in w.objs
    requires forall j :: j in w.home ==> IsOut(h, j)
    ensures LaidOut(v, h', w.objs)
    ensures forall j :: j in w.objs ==> j in h.spans && j in h'.spans && h'.spans[j] == h.spans[j]
  {
    forall j | j in w.objs ensures j in h.spans && j in h'.spans && h'.spans[j] == h.spans[j] {
      assert IsOut(h, j) && IsOut(h', j);
    }
    forall j | j in w.objs ensures w.objs[j] == Carved(v, h'.spans[j]) {
      assert w.objs[j] == Carved(v, h.spans[j]);
    }
  }

  lemma MoveLive(s: State, s': State, w: Witness, own': map<nat, SpanId>)
    requires LiveOk(s, w.own) && AgreeOk(s, w.at) && CoverOk(w) && s'.live == s.live
    requires forall a :: a in w.at ==> PageOf(a) in w.own && PageOf(a) in own' && own'[PageOf(a)] == w.own[PageOf(a)]
    requires forall j :: j in w.objs ==> j in s.heap.spans && j in s'.heap.spans && s'.heap.spans[j] == s.heap.spans[j]
    ensures LiveOk(s', own')
  {
    forall a | a in s'.live
      ensures PageOf(a) in own' && own'[PageOf(a)] in s'.heap.spans &&
        s'.live[a] == s'.heap.spans[own'[PageOf(a)]].objsize
    {
      assert Holds(s, WithUser, a);
    }
  }

  /** What a page-heap operation leaves unchanged about objects: everything. */
  lemma MoveObjects(k: Setup, s: State, s': State, w: Witness, w': Witness, t: Tid, id: SpanId)
    requires ObjectsOk(k, s, w) && OneMoves(s, s', t) && HeapMove(s.heap, s'.heap, w.own, w'.own, id)
    requires BucketsOk(s.heap) && BucketsOk(s'.heap) && s'.caches == s.caches && s'.live == s.live
    requires Hand(s'.pc[t]) == Hand(s.pc[t]) && HandClass(s'.pc[t]) == HandClass(s.pc[t])
    requires id !in w.objs && w'.objs == w.objs && w'.at == w.at && w.objs.Keys <= w'.home.Keys
    requires id in s.heap.spans ==> s.heap.spans[id].objlist == []
    requires id in s'.heap.spans ==> s'.heap.spans[id].objlist == []
    requires forall j :: j in w.home ==> IsOut(s.heap, j)
    requires forall j :: j in w.home && j != id ==> SameEntry(w, w', j)
    ensures ObjectsOk(k, s', w')
    ensures forall a :: a in w.at ==> PageOf(a) in w.own && PageOf(a) in w'.own && w'.own[PageOf(a)] == w.own[PageOf(a)]
  {
    MoveOwners(s, w, w'.own, s'.heap, id);
    MoveAgree(s, s', w.at, w.own, t, id);
    MoveCover(w, w');
    MovePlaces(s, s', w, w', t, id);
    MoveLaid(k.v, s.heap, s'.heap, w, w'.own, id);
    MoveLive(s, s', w, w'.own);
  }

  lemma MovePcs(k: Setup, s: State, s': State, w: Witness, own': map<nat, SpanId>, t: Tid, id: SpanId)
    requires PcsOk(k, s, w.own) && AgreeOk(s, w.at) && OneMoves(s, s', t) && s'.caches == s.caches &&
      s'.lists == s.lists
    requires OthersKept(s.heap, s'.heap, w.own, id) && BucketsOk(s.heap)
    requires id in s.heap.spans ==> s.heap.spans[id].objlist == []
    requires forall a :: a in w.at ==> PageOf(a) in w.own && PageOf(a) in own' && own'[PageOf(a)] == w.own[PageOf(a)]
    requires PcOk(k, s', own', t, s'.pc[t])
    ensures PcsOk(k, s', own')
  {
    forall u, a | u in s.pc && a in Hand(s.pc[u]) && PageOf(a) in w.own
      ensures PageOf(a) in own' && own'[PageOf(a)] == w.own[PageOf(a)]
    {
      assert Holds(s, InHand(u), a);
    }
    forall u | u in s.pc && u != t && s.pc[u].TakeObjs? && Takable(s, s.pc[u]) ensures Takable(s', s.pc[u]) {
      var j := s.pc[u].id;
      if !IsOut(s.heap, j) {
        NoObjectsInBuckets(s.heap, j);
      }
      assert IsOut(s.heap, j) && IsOut(s'.heap, j);
    }
    PcsStep(k, s, w.own, s', own', t);
  }

  /** Assembly: the parts of the invariant after a page-heap operation. */
  lemma HeapStep(k: Setup, s: State, s': State, w: Witness, w': Witness, t: Tid)
    requires Inv(k, s, w) && OneMoves(s, s', t) && LocksFollow(s, s', t) && s'.caches == s.caches
    requires HeapOk(s'.heap, w'.own) && HomesOk(s', w'.home) && SpansOk(k, s', w')
    requires ObjectsOk(k, s', w') && PcsOk(k, s', w'.own)
    ensures Inv(k, s', w')
  {
    LocksStep(s, s', t);
  }

  // ---- a span from the page heap

  lemma NewHomes(s: State, s': State, w: Witness, t: Tid, id: SpanId)
    requires HomesOk(s, w.home) && OneMoves(s, s', t) && s'.lists == s.lists
    requires OthersKept(s.heap, s'.heap, w.own, id) && !IsOut(s.heap, id) && IsOut(s'.heap, id)
    requires Carries(s.pc[t]).None? && Carries(s'.pc[t]) == Some(id)
    ensures HomesOk(s', w.home[id := Carried(t)]) && id !in w.home
  {
    var home' := w.home[id := Carried(t)];
    assert id !in w.home;
    forall j ensures j in home' <==> IsOut(s'.heap, j) {
      assert j != id ==> (IsOut(s'.heap, j) <==> IsOut(s.heap, j));
    }
    forall c, j | 0 <= c < NFREELIST && j in s'.lists[c] ensures j in home' && home'[j] == Listed(c) {
      assert j in s.lists[c];
    }
    NewCarries(s, s', w.home, t, id);
  }

  lemma NewCarries(s: State, s': State, home: map<SpanId, Home>, t: Tid, id: SpanId)
    requires CarriesOk(s, home) && OneMoves(s, s', t) && Carries(s.pc[t]).None? && Carries(s'.pc[t]) == Some(id)
    requires id !in home
    ensures CarriesOk(s', home[id := Carried(t)])
  {
    var home' := home[id := Carried(t)];
    forall j | j in home' && home'[j].Carried?
      ensures home'[j].t in s'.pc && Carries(s'.pc[home'[j].t]) == Some(j)
    {
      assert j != id ==> Carries(s.pc[home[j].t]) == Some(j);
    }
    forall u | u in s'.pc && Carries(s'.pc[u]).Some?
      ensures Carries(s'.pc[u]).value in home' && home'[Carries(s'.pc[u]).value] == Carried(u)
    {
      assert u != t ==> Carries(s.pc[u]).Some?;
    }
  }

  lemma NewIs(k: Setup, s: State, own: map<nat, SpanId>, t: Tid, size: nat, c: nat, num: nat, sys: nat)
    returns (s': State, own': map<nat, SpanId>, id: SpanId)
    requires TablesOk(k) && HeapOk(s.heap, own) && t in s.pc && s.pc[t] == SpanNew(size, c, num)
    requires c < NFREELIST && size == k.size[c] && TagSafe(k.v, k.pages[c])
    requires sys > 0 && PageRange(sys, NPAGES - 1) !! s.heap.pages
    ensures size > 0 && s' == StepNew(k.v, s, t, size, c, num, sys)
    ensures s' == SetPc(s.(heap := s'.heap), t, SpanMark(size, c, num, id))
    ensures HeapOk(s'.heap, own') && HeapMove(s.heap, s'.heap, own, own', id)
    ensures !IsOut(s.heap, id) && IsOut(s'.heap, id) && FullyTagged(s'.heap, id)
    ensures s'.heap.spans[id].npage == k.pages[c] && Spare(s'.heap.spans[id])
  {
    assert ClassSize(c) > 0;
    ClassTable(c);
    NumMovePageBounds(size);
    own' := NewSpanOk(k.v, s.heap, own, NumMovePage(size), sys);
    s' := StepNew(k.v, s, t, size, c, num, sys);
    id := NewSpan(k.v, s.heap, NumMovePage(size), sys).value.1;
  }

  lemma NewMoves(s: State, h: Heap, t: Tid, q: Pc)
    requires LocksOk(s) && t in s.pc && s.pc[t].SpanNew? && q.SpanMark?
    ensures var s' := SetPc(s.(heap := h), t, q); OneMoves(s, s', t) && LocksFollow(s, s', t)
  {
    assert HoldsPage(s.pc[t]);
  }

  /** The witness after a span arrives. */
  lemma NewEntries(w: Witness, w': Witness, t: Tid, id: SpanId)
    requires CoverOk(w) && id !in w.home && w' == w.(own := w'.own, home := w.home[id := Carried(t)])
    ensures forall j :: j in w.home && j != id ==> SameEntry(w, w', j)
    ensures id !in w.objs && w.objs.Keys <= w'.home.Keys
  {
  }

  lemma NewObjects(k: Setup, s: State, s': State, w: Witness, w': Witness, t: Tid, id: SpanId)
    requires BucketsOk(s.heap) && BucketsOk(s'.heap) && HeapMove(s.heap, s'.heap, w.own, w'.own, id)
    requires HomesOk(s, w.home) && ObjectsOk(k, s, w) && id !in w.home
    requires OneMoves(s, s', t) && s.pc[t].SpanNew? && s'.pc[t].SpanMark? && s'.caches == s.caches && s'.live == s.live
    requires !IsOut(s.heap, id) && id in s'.heap.spans && Spare(s'.heap.spans[id])
    requires w' == w.(own := w'.own, home := w.home[id := Carried(t)])
    ensures ObjectsOk(k, s', w')
    ensures forall a :: a in w.at ==> PageOf(a) in w.own && PageOf(a) in w'.own && w'.own[PageOf(a)] == w.own[PageOf(a)]
  {
    NewEntries(w, w', t, id);
    NoObjectsInBuckets(s.heap, id);
    MoveObjects(k, s, s', w, w', t, id);
  }

  lemma NewSpans(k: Setup, s: State, s': State, w: Witness, w': Witness, t: Tid, id: SpanId)
    requires Partition(s.heap, w.own) && HeapMove(s.heap, s'.heap, w.own, w'.own, id) && CoverOk(w) && id !in w.home
    requires LocksOk(s) && LocksOk(s') && HomesOk(s, w.home) && SpansOk(k, s, w) && OneMoves(s, s', t)
    requires s.pc[t].SpanNew? && s'.pc[t].SpanMark? && s'.pc[t].c < NFREELIST
    requires IsOut(s'.heap, id) && FullyTagged(s'.heap, id)
    requires s'.heap.spans[id].npage == k.pages[s'.pc[t].c] && Spare(s'.heap.spans[id])
    requires w' == w.(own := w'.own, home := w.home[id := Carried(t)])
    ensures SpansOk(k, s', w')
  {
    NewEntries(w, w', t, id);
    MoveSpans(k, s, s', w, w', t, id);
  }

  lemma NewParts(k: Setup, s: State, s': State, w: Witness, own': map<nat, SpanId>, t: Tid, id: SpanId)
      returns (w': Witness)
    requires HeapOk(s.heap, w.own) && HeapOk(s'.heap, own') && HeapMove(s.heap, s'.heap, w.own, own', id)
    requires LocksOk(s) && LocksOk(s') && HomesOk(s, w.home) && SpansOk(k, s, w) && ObjectsOk(k, s, w)
    requires t in s.pc && s.pc[t].SpanNew? && s.pc[t].c < NFREELIST
    requires s' == SetPc(s.(heap := s'.heap), t, SpanMark(s.pc[t].size, s.pc[t].c, s.pc[t].num, id)) &&
      OneMoves(s, s', t)
    requires !IsOut(s.heap, id) && IsOut(s'.heap, id) && FullyTagged(s'.heap, id)
    requires s'.heap.spans[id].npage == k.pages[s.pc[t].c] && Spare(s'.heap.spans[id])
    ensures w'.own == own' && HomesOk(s', w'.home) && SpansOk(k, s', w') && ObjectsOk(k, s', w')
    ensures forall a :: a in w.at ==> PageOf(a) in w.own && PageOf(a) in own' && own'[PageOf(a)] == w.own[PageOf(a)]
  {
    NewHomes(s, s', w, t, id);
    w' := w.(own := own', home := w.home[id := Carried(t)]);
    NewObjects(k, s, s', w, w', t, id);
    NewSpans(k, s, s', w, w', t, id);
  }

  lemma NewReady(k: Setup, s: State, w: Witness, t: Tid, size: nat, c: nat, num: nat, sys: nat)
    returns (s': State, w': Witness)
    requires TablesOk(k) && HeapOk(s.heap, w.own) && LocksOk(s) && HomesOk(s, w.home) && SpansOk(k, s, w)
    requires ObjectsOk(k, s, w) && PcsOk(k, s, w.own)
    requires t in s.pc && s.pc[t] == SpanNew(size, c, num) && PcOk(k, s, w.own, t, s.pc[t])
    requires sys > 0 && PageRange(sys, NPAGES - 1) !! s.heap.pages
    ensures size > 0 && s' == StepNew(k.v, s, t, size, c, num, sys)
    ensures OneMoves(s, s', t) && LocksFollow(s, s', t) && s'.caches == s.caches
    ensures HeapOk(s'.heap, w'.own) && HomesOk(s', w'.home) && SpansOk(k, s', w')
    ensures ObjectsOk(k, s', w') && PcsOk(k, s', w'.own)
  {
    var own', id;
    s', own', id := NewIs(k, s, w.own, t, size, c, num, sys);
    NewMoves(s, s'.heap, t, s'.pc[t]);
    LocksStep(s, s', t);
    w' := NewParts(k, s, s', w, own', t, id);
    NewPcs(k, s, s', w, own', t, id);
  }

  lemma NewPcs(k: Setup, s: State, s': State, w: Witness, own': map<nat, SpanId>, t: Tid, id: SpanId)
    requires PcsOk(k, s, w.own) && AgreeOk(s, w.at) && OneMoves(s, s', t) && s'.caches == s.caches &&
      s'.lists == s.lists
    requires OthersKept(s.heap, s'.heap, w.own, id) && BucketsOk(s.heap) && !IsOut(s.heap, id)
    requires forall a :: a in w.at ==> PageOf(a) in w.own && PageOf(a) in own' && own'[PageOf(a)] == w.own[PageOf(a)]
    requires s.pc[t].SpanNew? && s'.pc[t] == SpanMark(s.pc[t].size, s.pc[t].c, s.pc[t].num, id)
    ensures PcsOk(k, s', own')
  {
    NoObjectsInBuckets(s.heap, id);
    assert PcOk(k, s, w.own, t, s.pc[t]);
    MovePcs(k, s, s', w, own', t, id);
  }

  /** A span of the class's page count arrives; every page of it is tagged with it. */
  lemma NewStep(k: Setup, s: State, w: Witness, t: Tid, size: nat, c: nat, num: nat, sys: nat) returns (w': Witness)
    requires Inv(k, s, w) && t in s.pc && s.pc[t] == SpanNew(size, c, num)
    requires sys > 0 && PageRange(sys, NPAGES - 1) !! s.heap.pages
    ensures size > 0 && Inv(k, StepNew(k.v, s, t, size, c, num, sys), w')
  {
    assert PcOk(k, s, w.own, t, s.pc[t]);
    var s';
    s', w' := NewReady(k, s, w, t, size, c, num, sys);
    HeapStep(k, s, s', w, w', t);
  }

  // ---- a span back to the page heap

  /** Under the page lock every other span outside the heap is marked in use. */
  lemma GiveMarked(k: Setup, s: State, w: Witness, t: Tid, id: SpanId)
    requires LocksOk(s) && HomesOk(s, w.home) && SpansOk(k, s, w)
    requires t in s.pc && s.pc[t].Give? && s.pc[t].id == id
    ensures OutMarked(s.heap, id)
  {
    assert HoldsPage(s.pc[t]);
    forall j | j != id && IsOut(s.heap, j) ensures s.heap.spans[j].isUse {
      assert SpanOk(k, s, w, j);
      if w.home[j].Carried? {
        var u := w.home[j].t;
        assert Carries(s.pc[u]) == Some(j) && Carries(s.pc[t]) == Some(id);
        assert s.pc[u].SpanMark? ==> HoldsPage(s.pc[u]);
      }
    }
  }

  lemma GiveIs(k: Setup, s: State, w: Witness, t: Tid, c: nat, chain: seq<Addr>, id: SpanId)
    returns (s': State, own': map<nat, SpanId>)
    requires HeapOk(s.heap, w.own) && OutMarked(s.heap, id) && t in s.pc && s.pc[t] == Give(c, chain, id)
    requires id in w.home && w.home[id] == Carried(t) && IsOut(s.heap, id) && SpanOk(k, s, w, id)
    ensures s' == StepGive(s, t, c, chain, id)
    ensures s' == SetPc(s.(heap := s'.heap, pageLock := None), t, ReturnLock(c, chain))
    ensures HeapOk(s'.heap, own') && HeapMove(s.heap, s'.heap, w.own, own', id)
    ensures InBucket(s'.heap, id) && id !in w.objs && s.heap.spans[id].objlist == []
  {
    own' := ReleaseOk(s.heap, w.own, id);
    s' := StepGive(s, t, c, chain, id);
  }

  lemma GiveHomes(s: State, s': State, w: Witness, t: Tid, id: SpanId)
    requires HomesOk(s, w.home) && OneMoves(s, s', t) && s'.lists == s.lists
    requires OthersKept(s.heap, s'.heap, w.own, id) && InBucket(s'.heap, id)
    requires Carries(s.pc[t]) == Some(id) && Carries(s'.pc[t]).None?
    ensures HomesOk(s', w.home - {id})
  {
    var home' := w.home - {id};
    assert w.home[id] == Carried(t);
    forall j ensures j in home' <==> IsOut(s'.heap, j) {
      assert j != id ==> (IsOut(s'.heap, j) <==> IsOut(s.heap, j));
    }
    forall c, j | 0 <= c < NFREELIST && j in s'.lists[c] ensures j in home' && home'[j] == Listed(c) {
      assert j in s.lists[c];
    }
    GiveCarries(s, s', w.home, t, id);
  }

  lemma GiveCarries(s: State, s': State, home: map<SpanId, Home>, t: Tid, id: SpanId)
    requires CarriesOk(s, home) && OneMoves(s, s', t) && Carries(s.pc[t]) == Some(id) && Carries(s'.pc[t]).None?
    ensures CarriesOk(s', home - {id})
  {
    var home' := home - {id};
    forall j | j in home' && home'[j].Carried?
      ensures home'[j].t in s'.pc && Carries(s'.pc[home'[j].t]) == Some(j)
    {
      assert Carries(s.pc[home[j].t]) == Some(j);
    }
    forall u | u in s'.pc && Carries(s'.pc[u]).Some?
      ensures Carries(s'.pc[u]).value in home' && home'[Carries(s'.pc[u]).value] == Carried(u)
    {
      assert u != t && Carries(s.pc[u]).Some?;
    }
  }

  lemma GiveMoves(s: State, h: Heap, t: Tid, q: Pc)
    requires LocksOk(s) && t in s.pc && s.pc[t].Give? && q.ReturnLock?
    ensures var s' := SetPc(s.(heap := h, pageLock := None), t, q); OneMoves(s, s', t) && LocksFollow(s, s', t)
  {
    assert HoldsPage(s.pc[t]);
  }

  lemma GiveEntries(w: Witness, w': Witness, id: SpanId)
    requires CoverOk(w) && id !in w.objs && w' == w.(own := w'.own, home := w.home - {id})
    ensures forall j :: j in w.home && j != id ==> SameEntry(w, w', j)
    ensures w.objs.Keys <= w'.home.Keys
  {
  }

  lemma GiveObjects(k: Setup, s: State, s': State, w: Witness, w': Witness, t: Tid, id: SpanId)
    requires BucketsOk(s.heap) && BucketsOk(s'.heap) && HeapMove(s.heap, s'.heap, w.own, w'.own, id)
    requires HomesOk(s, w.home) && ObjectsOk(k, s, w) && OneMoves(s, s', t)
    requires s.pc[t].Give? && s'.pc[t] == ReturnLock(s.pc[t].c, s.pc[t].chain) && s'.caches == s.caches &&
      s'.live == s.live
    requires InBucket(s'.heap, id) && id !in w.objs && id in s.heap.spans && s.heap.spans[id].objlist == []
    requires w' == w.(own := w'.own, home := w.home - {id})
    ensures ObjectsOk(k, s', w')
    ensures forall a :: a in w.at ==> PageOf(a) in w.own && PageOf(a) in w'.own && w'.own[PageOf(a)] == w.own[PageOf(a)]
  {
    GiveEntries(w, w', id);
    NoObjectsInBuckets(s'.heap, id);
    MoveObjects(k, s, s', w, w', t, id);
  }

  lemma GiveSpans(k: Setup, s: State, s': State, w: Witness, w': Witness, t: Tid, id: SpanId)
    requires Partition(s.heap, w.own) && HeapMove(s.heap, s'.heap, w.own, w'.own, id) && CoverOk(w) && id !in w.objs
    requires LocksOk(s) && LocksOk(s') && HomesOk(s, w.home) && SpansOk(k, s, w) && OneMoves(s, s', t)
    requires s.pc[t].Give? && s.pc[t].id == id && w' == w.(own := w'.own, home := w.home - {id})
    ensures SpansOk(k, s', w')
  {
    GiveEntries(w, w', id);
    MoveSpans(k, s, s', w, w', t, id);
  }

  lemma GiveParts(k: Setup, s: State, s': State, w: Witness, own': map<nat, SpanId>, t: Tid, id: SpanId)
      returns (w': Witness)
    requires HeapOk(s.heap, w.own) && HeapOk(s'.heap, own') && HeapMove(s.heap, s'.heap, w.own, own', id)
    requires LocksOk(s) && LocksOk(s') && HomesOk(s, w.home) && SpansOk(k, s, w) && ObjectsOk(k, s, w)
    requires t in s.pc && s.pc[t].Give? && s.pc[t].id == id && OneMoves(s, s', t)
    requires s' == SetPc(s.(heap := s'.heap, pageLock := None), t, ReturnLock(s.pc[t].c, s.pc[t].chain))
    requires InBucket(s'.heap, id) && id !in w.objs && id in s.heap.spans && s.heap.spans[id].objlist == []
    ensures w'.own == own' && HomesOk(s', w'.home) && SpansOk(k, s', w') && ObjectsOk(k, s', w')
    ensures forall a :: a in w.at ==> PageOf(a) in w.own && PageOf(a) in own' && own'[PageOf(a)] == w.own[PageOf(a)]
  {
    GiveHomes(s, s', w, t, id);
    w' := w.(own := own', home := w.home - {id});
    GiveObjects(k, s, s', w, w', t, id);
    GiveSpans(k, s, s', w, w', t, id);
  }

  lemma GiveReady(k: Setup, s: State, w: Witness, t: Tid, c: nat, chain: seq<Addr>, id: SpanId)
    returns (s': State, w': Witness)
    requires HeapOk(s.heap, w.own) && LocksOk(s) && HomesOk(s, w.home) && SpansOk(k, s, w)
    requires ObjectsOk(k, s, w) && PcsOk(k, s, w.own)
    requires t in s.pc && s.pc[t] == Give(c, chain, id) && PcOk(k, s, w.own, t, s.pc[t])
    requires id in w.home && w.home[id] == Carried(t) && IsOut(s.heap, id) && SpanOk(k, s, w, id)
    requires OutMarked(s.heap, id)
    ensures s' == StepGive(s, t, c, chain, id)
    ensures OneMoves(s, s', t) && LocksFollow(s, s', t) && s'.caches == s.caches
    ensures HeapOk(s'.heap, w'.own) && HomesOk(s', w'.home) && SpansOk(k, s', w')
    ensures ObjectsOk(k, s', w') && PcsOk(k, s', w'.own)
  {
    var own';
    s', own' := GiveIs(k, s, w, t, c, chain, id);
    GiveMoves(s, s'.heap, t, s'.pc[t]);
    LocksStep(s, s', t);
    w' := GiveParts(k, s, s', w, own', t, id);
    MovePcs(k, s, s', w, own', t, id);
  }

  /** The whole span goes back to the page heap under the page lock. */
  lemma GiveStep(k: Setup, s: State, w: Witness, t: Tid, c: nat, chain: seq<Addr>, id: SpanId) returns (w': Witness)
    requires Inv(k, s, w) && t in s.pc && s.pc[t] == Give(c, chain, id)
    ensures Inv(k, StepGive(s, t, c, chain, id), w')
  {
    assert PcOk(k, s, w.own, t, s.pc[t]);
    CarrierFacts(k, s, w, t, id);
    GiveMarked(k, s, w, t, id);
    var s';
    s', w' := GiveReady(k, s, w, t, c, chain, id);
    HeapStep(k, s, s', w, w', t);
  }
}
