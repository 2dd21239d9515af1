/** What one thread's step leaves alone, stated once for all steps. */
module AllocatorFrames {
  import opened Basics
  import opened SizeClass
  import opened PageHeap
  import opened PageHeapInvariant
  import opened Allocator
  import opened AllocatorInvariant

  /** Only thread `t` moves. */
  ghost predicate OneMoves(s: State, s': State, t: Tid) {
    && s'.pc.Keys == s.pc.Keys && t in s.pc
    && forall u :: u in s.pc && u != t ==> s'.pc[u] == s.pc[u]
  }

  /** The locks follow the thread: taken only when free, given up by the holder. */
  ghost predicate LocksFollow(s: State, s': State, t: Tid)
    requires OneMoves(s, s', t)
  {
    var p, q := s.pc[t], s'.pc[t];
    && (!HoldsPage(p) && HoldsPage(q) ==> s.pageLock.None?)
    && (HoldsBucket(q).Some? ==> HoldsBucket(q).value < NFREELIST)
    && s'.pageLock == (if HoldsPage(q) then Some(t) else if HoldsPage(p) then None else s.pageLock)
    && forall c :: 0 <= c < NFREELIST ==>
         && (HoldsBucket(q) == Some(c) && HoldsBucket(p) != Some(c) ==> s.bucketLock[c].None?)
         && s'.bucketLock[c] ==
            (if HoldsBucket(q) == Some(c) then Some(t) else if HoldsBucket(p) == Some(c) then None else s.bucketLock[c])
  }

  lemma PageLockStep(s: State, s': State, t: Tid)
    requires LocksOk(s) && OneMoves(s, s', t) && LocksFollow(s, s', t)
    ensures forall u {:trigger HoldsPage(s'.pc[u])} :: u in s'.pc && HoldsPage(s'.pc[u]) ==> s'.pageLock == Some(u)
    ensures s'.pageLock.Some? ==> s'.pageLock.value in s'.pc && HoldsPage(s'.pc[s'.pageLock.value])
  {
    assert HoldsPage(s.pc[t]) ==> s.pageLock == Some(t);
    forall u | u in s'.pc && u != t && HoldsPage(s'.pc[u]) ensures s'.pageLock == Some(u) {
      assert HoldsPage(s.pc[u]);
    }
  }

  lemma HolderStep(s: State, s': State, t: Tid, u: Tid)
    requires LocksOk(s) && OneMoves(s, s', t) && LocksFollow(s, s', t)
    requires u in s'.pc && HoldsBucket(s'.pc[u]).Some?
    ensures HoldsBucket(s'.pc[u]).value < NFREELIST && s'.bucketLock[HoldsBucket(s'.pc[u]).value] == Some(u)
  {
    assert HoldsBucket(s.pc[t]).Some? ==> s.bucketLock[HoldsBucket(s.pc[t]).value] == Some(t);
    if u != t {
      assert HoldsBucket(s.pc[u]).Some?;
    }
  }

  lemma HeldStep(s: State, s': State, t: Tid, c: nat)
    requires LocksOk(s) && OneMoves(s, s', t) && LocksFollow(s, s', t)
    requires c < NFREELIST && s'.bucketLock[c].Some?
    ensures s'.bucketLock[c].value in s'.pc && HoldsBucket(s'.pc[s'.bucketLock[c].value]) == Some(c)
  {
    if HoldsBucket(s'.pc[t]) != Some(c) {
      assert s.bucketLock[c] == s'.bucketLock[c];
    }
  }

  lemma LocksStep(s: State, s': State, t: Tid)
    requires LocksOk(s) && OneMoves(s, s', t) && LocksFollow(s, s', t)
    ensures LocksOk(s')
  {
    PageLockStep(s, s', t);
    forall u | u in s'.pc && HoldsBucket(s'.pc[u]).Some?
      ensures HoldsBucket(s'.pc[u]).value < NFREELIST && s'.bucketLock[HoldsBucket(s'.pc[u]).value] == Some(u)
    {
      HolderStep(s, s', t, u);
    }
    forall c | 0 <= c < NFREELIST && s'.bucketLock[c].Some?
      ensures s'.bucketLock[c].value in s'.pc && HoldsBucket(s'.pc[s'.bucketLock[c].value]) == Some(c)
    {
      HeldStep(s, s', t, c);
    }
  }

  /** No other thread about to cut objects off a span loses that span. */
  ghost predicate TakesKept(s: State, s': State, t: Tid) {
    forall u :: u in s.pc && u != t && s.pc[u].TakeObjs? && Takable(s, s.pc[u]) ==> Takable(s', s.pc[u])
  }

  ghost predicate OwnersKept(s: State, own: map<nat, SpanId>, own': map<nat, SpanId>) {
    forall u, a {:trigger a in Hand(s.pc[u])} :: u in s.pc && a in Hand(s.pc[u]) && PageOf(a) in own ==>
      PageOf(a) in own' && own'[PageOf(a)] == own[PageOf(a)]
  }

  ghost predicate OtherCachesKept(s: State, s': State, t: Tid) {
    forall u :: u in s.caches && u != t ==> u in s'.caches && s'.caches[u] == s.caches[u]
  }

  lemma PcsStep(k: Setup, s: State, own: map<nat, SpanId>, s': State, own': map<nat, SpanId>, t: Tid)
    requires PcsOk(k, s, own) && OneMoves(s, s', t)
    requires TakesKept(s, s', t) && OwnersKept(s, own, own') && OtherCachesKept(s, s', t)
    requires PcOk(k, s', own', t, s'.pc[t])
    ensures PcsOk(k, s', own')
  {
    forall u | u in s'.pc && u != t ensures PcOk(k, s', own', u, s'.pc[u]) {
      var pc := s.pc[u];
      assert PcOk(k, s, own, u, pc);
      if pc.Dealloc? {
        assert pc.obj in Hand(pc);
      } else if pc.ReturnPut? {
        assert pc.chain[0] in Hand(pc);
      }
    }
  }

  lemma CarriesSame(s: State, s': State, home: map<SpanId, Home>, t: Tid)
    requires CarriesOk(s, home) && OneMoves(s, s', t)
    requires Carries(s'.pc[t]) == Carries(s.pc[t])
    ensures CarriesOk(s', home)
  {
  }

  /** A span that was just published stays so while another thread moves. */
  lemma StillJustPublished(s: State, s': State, t: Tid, c: nat, id: SpanId)
    requires LocksOk(s) && LocksOk(s') && OneMoves(s, s', t) && c < NFREELIST
    requires JustPublished(s, c, id) && s.bucketLock[c] != Some(t)
    ensures JustPublished(s', c, id)
  {
    var u := s.bucketLock[c].value;
    assert HoldsBucket(s.pc[u]) == Some(c);
    assert HoldsBucket(s'.pc[u]) == Some(c);
  }

  /** What the witness says about a span is as before. */
  predicate SameEntry(w: Witness, w': Witness, id: SpanId) {
    && id in w.home && id in w'.home && w'.home[id] == w.home[id]
    && (id in w'.objs <==> id in w.objs) && (id in w.objs ==> w'.objs[id] == w.objs[id])
  }

  /** A span that keeps its record, its tags and its home stays right. */
  lemma SpanSame(k: Setup, s: State, s': State, w: Witness, w': Witness, t: Tid, id: SpanId)
    requires LocksOk(s) && LocksOk(s') && OneMoves(s, s', t)
    requires SameEntry(w, w', id) && SpanOk(k, s, w, id)
    requires id in s'.heap.spans && s'.heap.spans[id] == s.heap.spans[id] && FullyTagged(s'.heap, id)
    requires w.home[id] == Carried(t) ==>
      CarriedOk(k, s.heap.spans[id], s'.pc[t]) && (Uncut(s'.pc[t]) <==> Uncut(s.pc[t]))
    requires s.pc[t].TakeObjs? ==> s.pc[t].id != id
    ensures SpanOk(k, s', w', id)
  {
    if w.home[id].Listed? && s.heap.spans[id].usecount == 0 {
      StillJustPublished(s, s', t, w.home[id].c, id);
    }
  }

  /** The heap and the central lists are untouched, and no span changes hands or stage. */
  ghost predicate SameSpans(k: Setup, s: State, s': State, t: Tid) {
    && OneMoves(s, s', t)
    && s'.heap == s.heap && s'.lists == s.lists
    && Carries(s'.pc[t]) == Carries(s.pc[t]) && (Uncut(s'.pc[t]) <==> Uncut(s.pc[t]))
    && (forall sp: Span :: Carries(s.pc[t]).Some? && CarriedOk(k, sp, s.pc[t]) ==> CarriedOk(k, sp, s'.pc[t]))
    && !s.pc[t].TakeObjs?
  }

  /** Neither do the caches, the live objects or the thread's hand. */
  ghost predicate Silent(k: Setup, s: State, s': State, t: Tid) {
    && SameSpans(k, s, s', t)
    && s'.caches == s.caches && s'.live == s.live
    && Hand(s'.pc[t]) == Hand(s.pc[t])
    && (Hand(s.pc[t]) == [] || HandClass(s'.pc[t]) == HandClass(s.pc[t]))
  }

  lemma SameSpansOk(k: Setup, s: State, s': State, w: Witness, at': map<Addr, Place>, t: Tid)
    requires SameSpans(k, s, s', t) && LocksOk(s) && LocksOk(s') && SpansOk(k, s, w)
    requires CarriesOk(s, w.home)
    ensures SpansOk(k, s', w.(at := at'))
  {
    forall id | id in w.home ensures SpanOk(k, s', w.(at := at'), id) {
      assert SpanOk(k, s, w, id);
      SpanSame(k, s, s', w, w.(at := at'), t, id);
    }
  }

  lemma SilentObjects(k: Setup, s: State, s': State, w: Witness, t: Tid)
    requires Silent(k, s, s', t) && ObjectsOk(k, s, w)
    ensures ObjectsOk(k, s', w)
  {
    forall l, a ensures Holds(s', l, a) <==> Holds(s, l, a) {
    }
    forall a | a in w.at ensures PlaceOk(s'.pc, w.home, w.at[a], w.own[PageOf(a)]) {
      assert PlaceOk(s.pc, w.home, w.at[a], w.own[PageOf(a)]);
      assert Holds(s, w.at[a], a);
    }
  }

  lemma SameSpansPcs(k: Setup, s: State, s': State, own: map<nat, SpanId>, t: Tid)
    requires SameSpans(k, s, s', t) && OtherCachesKept(s, s', t) && PcsOk(k, s, own) && PcOk(k, s', own, t, s'.pc[t])
    ensures PcsOk(k, s', own)
  {
    PcsStep(k, s, own, s', own, t);
  }

  lemma SameSpansHomes(k: Setup, s: State, s': State, home: map<SpanId, Home>, t: Tid)
    requires SameSpans(k, s, s', t) && HomesOk(s, home)
    ensures HomesOk(s', home)
  {
    CarriesSame(s, s', home, t);
  }

  /** A step that only moves a thread and its locks keeps the invariant. */
  lemma SilentStep(k: Setup, s: State, s': State, w: Witness, t: Tid)
    requires Inv(k, s, w) && Silent(k, s, s', t) && LocksFollow(s, s', t)
    requires PcOk(k, s', w.own, t, s'.pc[t])
    ensures Inv(k, s', w)
  {
    LocksStep(s, s', t);
    SameSpansHomes(k, s, s', w.home, t);
    SameSpansOk(k, s, s', w, w.at, t);
    SilentObjects(k, s, s', w, t);
    SameSpansPcs(k, s, s', w.own, t);
  }

  /** A step that moves objects between a thread, its caches and the users keeps the spans right. */
  lemma ThreadStep(k: Setup, s: State, s': State, w: Witness, at': map<Addr, Place>, t: Tid)
    requires Inv(k, s, w) && SameSpans(k, s, s', t) && LocksFollow(s, s', t) && OtherCachesKept(s, s', t)
    requires ObjectsOk(k, s', w.(at := at')) && CachesOk(k, s') && PcOk(k, s', w.own, t, s'.pc[t])
    ensures Inv(k, s', w.(at := at'))
  {
    LocksStep(s, s', t);
    SameSpansHomes(k, s, s', w.home, t);
    SameSpansOk(k, s, s', w, at', t);
    SameSpansPcs(k, s, s', w.own, t);
  }

  lemma RewriteHeap(h: Heap, h': Heap, own: map<nat, SpanId>, id: SpanId)
    requires HeapOk(h, own) && Rewritten(h, h', id)
    ensures HeapOk(h', own) && forall j :: IsOut(h', j) <==> IsOut(h, j)
  {
    RewriteBuckets(h, h', id);
    RewritePartition(h, h', own, id);
    RewriteEnds(h, h', id);
  }

  /** Objects handed over in one step. */
  function Relocate(at: map<Addr, Place>, moved: seq<Addr>, to: Place): map<Addr, Place> {
    map a | a in at :: if a in moved then to else at[a]
  }

  lemma AgreeMove(s: State, s': State, at: map<Addr, Place>, moved: seq<Addr>, to: Place)
    requires AgreeOk(s, at) && forall a :: a in moved ==> a in at
    requires forall l, a {:trigger Holds(s', l, a)} ::
      Holds(s', l, a) <==> if a in moved then l == to else Holds(s, l, a)
    ensures AgreeOk(s', Relocate(at, moved, to))
  {
  }

  lemma CoverSame(w: Witness, at': map<Addr, Place>)
    requires CoverOk(w) && at'.Keys == w.at.Keys
    ensures CoverOk(w.(at := at'))
  {
    forall a | a in at' ensures a in w.at {
    }
    forall id, a | id in w.objs && a in w.objs[id] ensures a in at' {
      assert a in w.at;
    }
  }

  /** Rewriting the counters and the object list of a span does not change its layout. */
  lemma LaidOutSame(v: Variant, h: Heap, h': Heap, objs: map<SpanId, seq<Addr>>, id: SpanId)
    requires LaidOut(v, h, objs) && Rewritten(h, h', id)
    requires id in objs ==> h'.spans[id].objsize == h.spans[id].objsize
    ensures LaidOut(v, h', objs)
  {
    forall j | j in objs ensures j in h'.spans && objs[j] == Carved(v, h'.spans[j]) {
      assert objs[j] == Carved(v, h.spans[j]);
    }
  }

  lemma PlacesMove(s: State, s': State, w: Witness, t: Tid, moved: seq<Addr>, to: Place)
    requires PlacesOk(s, w) && OneMoves(s, s', t)
    requires forall a :: a in moved && a in w.at ==> PlaceOk(s'.pc, w.home, to, w.own[PageOf(a)])
    requires HandClass(s'.pc[t]) == HandClass(s.pc[t]) || forall a :: a in w.at && w.at[a] == InHand(t) ==> a in moved
    ensures PlacesOk(s', w.(at := Relocate(w.at, moved, to)))
  {
    var at' := Relocate(w.at, moved, to);
    forall a | a in at' ensures PlaceOk(s'.pc, w.home, at'[a], w.own[PageOf(a)]) {
      assert PlaceOk(s.pc, w.home, w.at[a], w.own[PageOf(a)]);
    }
  }

  /** An object outside its span belongs to a span listed under the class of that place. */
  lemma ListedSpan(k: Setup, s: State, w: Witness, a: Addr)
    requires SpansOk(k, s, w) && CoverOk(w) && a in w.at
    requires w.home[w.own[PageOf(a)]].Listed?
    ensures var id := w.own[PageOf(a)];
            id in s.heap.spans && ListedOk(k, s, id, w.home[id].c, |w.objs[id]|)
  {
    assert SpanOk(k, s, w, w.own[PageOf(a)]);
  }
}
