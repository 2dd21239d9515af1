/** Steps that mark, carve, publish, drain and refill a span. */
module AllocatorSpanSteps {
  import opened Basics
  import opened SizeClass
  import opened PageHeap
  import opened PageHeapInvariant
  import opened Allocator
  import opened AllocatorInvariant
  import opened AllocatorFrames
  import opened Carving

  lemma OtherSpans(k: Setup, s: State, s': State, w: Witness, w': Witness, t: Tid, id: SpanId)
    requires SpansOk(k, s, w) && LocksOk(s) && LocksOk(s') && OneMoves(s, s', t)
    requires Rewritten(s.heap, s'.heap, id)
    requires forall j :: j in w.home && j != id ==> w.home[j] != Carried(t) && SameEntry(w, w', j)
    requires s.pc[t].TakeObjs? ==> s.pc[t].id == id
    ensures forall j :: j in w.home && j != id ==> j in w'.home && SpanOk(k, s', w', j)
  {
    forall j | j in w.home && j != id ensures j in w'.home && SpanOk(k, s', w', j) {
      assert SpanOk(k, s, w, j) && SameEntry(w, w', j);
      RewriteTagged(s.heap, s'.heap, id, j);
      SpanSame(k, s, s', w, w', t, j);
    }
  }

  lemma SpansFrom(k: Setup, s: State, w: Witness, w': Witness, id: SpanId)
    requires w'.home.Keys == w.home.Keys && id in w.home && SpanOk(k, s, w', id)
    requires forall j :: j in w.home && j != id ==> j in w'.home && SpanOk(k, s, w', j)
    ensures SpansOk(k, s, w')
  {
  }

  /** A step on one span: the parts that do not concern its objects. */
  lemma SpanStep(k: Setup, s: State, s': State, w: Witness, w': Witness, t: Tid, id: SpanId)
    requires Inv(k, s, w) && OneMoves(s, s', t) && LocksFollow(s, s', t)
    requires Rewritten(s.heap, s'.heap, id) && s'.caches == s.caches && w'.own == w.own
    requires forall j :: j in w.home && j != id ==> w.home[j] != Carried(t) && SameEntry(w, w', j)
    requires w'.home.Keys == w.home.Keys && id in w.home
    requires s.pc[t].TakeObjs? ==> s.pc[t].id == id
    requires ListsOk(s', w'.home) && CarriesOk(s', w'.home) && SpanOk(k, s', w', id)
    requires ObjectsOk(k, s', w') && TakesKept(s, s', t) && PcOk(k, s', w.own, t, s'.pc[t])
    ensures Inv(k, s', w')
  {
    RewriteHeap(s.heap, s'.heap, w.own, id);
    LocksStep(s, s', t);
    OtherSpans(k, s, s', w, w', t, id);
    SpansFrom(k, s', w, w', id);
    PcsStep(k, s, w.own, s', w.own, t);
  }

  lemma CarriedHome(s: State, w: Witness, t: Tid, id: SpanId)
    requires HomesOk(s, w.home) && t in s.pc && Carries(s.pc[t]) == Some(id)
    ensures id in w.home && w.home[id] == Carried(t) && IsOut(s.heap, id)
    ensures forall j :: j in w.home && j != id ==> w.home[j] != Carried(t)
    ensures forall c :: 0 <= c < NFREELIST ==> id !in s.lists[c]
  {
  }

  /** What a thread knows of the span it carries. */
  lemma CarrierFacts(k: Setup, s: State, w: Witness, t: Tid, id: SpanId)
    requires HomesOk(s, w.home) && SpansOk(k, s, w) && t in s.pc && Carries(s.pc[t]) == Some(id)
    ensures id in w.home && w.home[id] == Carried(t) && IsOut(s.heap, id) && SpanOk(k, s, w, id)
  {
    CarriedHome(s, w, t, id);
  }

  /** Nothing the witness says about other spans changes. */
  ghost predicate OthersSame(w: Witness, w': Witness, id: SpanId) {
    && w'.own == w.own && w'.home.Keys == w.home.Keys
    && forall j :: j in w.home && j != id ==> SameEntry(w, w', j)
  }

  /** A step by the thread that carries the span and goes on carrying it. */
  lemma CarrierStep(k: Setup, s: State, s': State, w: Witness, w': Witness, t: Tid, id: SpanId)
    requires Inv(k, s, w) && OneMoves(s, s', t) && LocksFollow(s, s', t)
    requires Carries(s.pc[t]) == Some(id) && Carries(s'.pc[t]) == Some(id)
    requires Rewritten(s.heap, s'.heap, id) && s'.caches == s.caches && s'.lists == s.lists
    requires OthersSame(w, w', id) && w'.home == w.home && id in w.home && SpanOk(k, s', w', id)
    requires ObjectsOk(k, s', w') && TakesKept(s, s', t) && PcOk(k, s', w.own, t, s'.pc[t])
    ensures Inv(k, s', w')
  {
    CarriedHome(s, w, t, id);
    CarriesSame(s, s', w.home, t);
    SpanStep(k, s, s', w, w', t, id);
  }

  /** A step on a listed span by a thread that carries none. */
  lemma ListedStep(k: Setup, s: State, s': State, w: Witness, at': map<Addr, Place>, t: Tid, id: SpanId)
    requires Inv(k, s, w) && OneMoves(s, s', t) && LocksFollow(s, s', t)
    requires Rewritten(s.heap, s'.heap, id) && s'.caches == s.caches && s'.lists == s.lists
    requires Carries(s.pc[t]).None? && Carries(s'.pc[t]).None? && id in w.home
    requires s.pc[t].TakeObjs? ==> s.pc[t].id == id
    requires SpanOk(k, s', w.(at := at'), id)
    requires ObjectsOk(k, s', w.(at := at')) && TakesKept(s, s', t) && PcOk(k, s', w.own, t, s'.pc[t])
    ensures Inv(k, s', w.(at := at'))
  {
    CarriesSame(s, s', w.home, t);
    CarriesNone(s, w, t);
    SameButAt(w, at', id);
    SpanStep(k, s, s', w, w.(at := at'), t, id);
  }

  lemma SameButAt(w: Witness, at': map<Addr, Place>, id: SpanId)
    ensures OthersSame(w, w.(at := at'), id)
  {
  }

  lemma CarriesNone(s: State, w: Witness, t: Tid)
    requires CarriesOk(s, w.home) && t in s.pc && Carries(s.pc[t]).None?
    ensures forall j :: j in w.home ==> w.home[j] != Carried(t)
  {
  }

  // ---- marking

  lemma MarkMoves(s: State, t: Tid, size: nat, c: nat, num: nat, id: SpanId)
    requires LocksOk(s) && t in s.pc && s.pc[t] == SpanMark(size, c, num, id)
    requires IsOut(s.heap, id) && s.heap.spans[id].objlist == []
    ensures var s' := StepMark(s, t, size, c, num, id);
            && OneMoves(s, s', t) && LocksFollow(s, s', t) && TakesKept(s, s', t) && Rewritten(s.heap, s'.heap, id)
            && s'.caches == s.caches && s'.lists == s.lists && s'.live == s.live
            && s'.heap.spans[id].objlist == [] && s'.pc[t] == Carve(size, c, num, id)
  {
  }

  lemma MarkSpan(k: Setup, s: State, s': State, w: Witness, t: Tid, size: nat, c: nat, num: nat, id: SpanId)
    requires t in s.pc && s.pc[t] == SpanMark(size, c, num, id) && c < NFREELIST && size == k.size[c]
    requires id in w.home && w.home[id] == Carried(t) && SpanOk(k, s, w, id)
    requires s' == StepMark(s, t, size, c, num, id) && Rewritten(s.heap, s'.heap, id)
    ensures SpanOk(k, s', w, id)
  {
    RewriteTagged(s.heap, s'.heap, id, id);
  }

  /** A thread that holds no object leaves every object where it is. */
  lemma EmptyHandPlaces(s: State, s': State, w: Witness, t: Tid)
    requires AgreeOk(s, w.at) && PlacesOk(s, w) && OneMoves(s, s', t) && Hand(s.pc[t]) == []
    ensures PlacesOk(s', w)
  {
    forall a | a in w.at ensures PlaceOk(s'.pc, w.home, w.at[a], w.own[PageOf(a)]) {
      assert PlaceOk(s.pc, w.home, w.at[a], w.own[PageOf(a)]);
      assert Holds(s, w.at[a], a);
    }
  }

  lemma MarkLive(s: State, s': State, w: Witness, id: SpanId)
    requires AgreeOk(s, w.at) && CoverOk(w) && LiveOk(s, w.own) && Rewritten(s.heap, s'.heap, id)
    requires s'.live == s.live && id !in w.objs
    ensures LiveOk(s', w.own)
  {
    forall a | a in s'.live
      ensures PageOf(a) in w.own && w.own[PageOf(a)] in s'.heap.spans &&
        s'.live[a] == s'.heap.spans[w.own[PageOf(a)]].objsize
    {
      assert Holds(s, WithUser, a);
    }
  }

  lemma MarkObjects(k: Setup, s: State, s': State, w: Witness, t: Tid, id: SpanId)
    requires ObjectsOk(k, s, w) && OneMoves(s, s', t) && Rewritten(s.heap, s'.heap, id)
    requires s'.caches == s.caches && s'.live == s.live && id !in w.objs
    requires s'.heap.spans[id].objlist == s.heap.spans[id].objlist
    requires Hand(s.pc[t]) == [] && Hand(s'.pc[t]) == []
    ensures ObjectsOk(k, s', w)
  {
    forall l, a ensures Holds(s', l, a) <==> Holds(s, l, a) {
    }
    EmptyHandPlaces(s, s', w, t);
    LaidOutSame(k.v, s.heap, s'.heap, w.objs, id);
    MarkLive(s, s', w, id);
  }

  lemma MarkReady(k: Setup, s: State, w: Witness, t: Tid, size: nat, c: nat, num: nat, id: SpanId)
    returns (s': State, w': Witness)
    requires LocksOk(s) && ObjectsOk(k, s, w)
    requires t in s.pc && s.pc[t] == SpanMark(size, c, num, id) && PcOk(k, s, w.own, t, s.pc[t])
    requires id in w.home && w.home[id] == Carried(t) && IsOut(s.heap, id) && SpanOk(k, s, w, id)
    ensures s' == StepMark(s, t, size, c, num, id)
    ensures OneMoves(s, s', t) && LocksFollow(s, s', t) && TakesKept(s, s', t) && Rewritten(s.heap, s'.heap, id)
    ensures s'.caches == s.caches && s'.lists == s.lists && Carries(s'.pc[t]) == Some(id)
    ensures OthersSame(w, w', id) && w'.home == w.home
    ensures SpanOk(k, s', w', id) && ObjectsOk(k, s', w') && PcOk(k, s', w.own, t, s'.pc[t])
  {
    MarkMoves(s, t, size, c, num, id);
    s', w' := StepMark(s, t, size, c, num, id), w;
    MarkSpan(k, s, s', w, t, size, c, num, id);
    MarkObjects(k, s, s', w, t, id);
  }

  /** Marking the fetched span in use, and recording its object size. */
  lemma MarkStep(k: Setup, s: State, w: Witness, t: Tid, size: nat, c: nat, num: nat, id: SpanId) returns (w': Witness)
    requires Inv(k, s, w) && t in s.pc && s.pc[t] == SpanMark(size, c, num, id)
    ensures Inv(k, StepMark(s, t, size, c, num, id), w')
  {
    assert PcOk(k, s, w.own, t, s.pc[t]);
    CarrierFacts(k, s, w, t, id);
    var s';
    s', w' := MarkReady(k, s, w, t, size, c, num, id);
    CarrierStep(k, s, s', w, w', t, id);
  }

  // ---- carving

  /** Carving puts every object of the span in the span. */
  function CarvedIn(w: Witness, objs: seq<Addr>, id: SpanId): Witness {
    w.(objs := w.objs[id := objs], at := w.at + (map a | a in objs :: InSpan(id)))
  }

  lemma CarveNew(k: Setup, s: State, w: Witness, id: SpanId, objs: seq<Addr>)
    requires CoverOk(w) && Partition(s.heap, w.own) && id in s.heap.spans && id !in w.objs
    requires objs == Carved(k.v, s.heap.spans[id])
    ensures forall a :: a in objs ==> a !in w.at && PageOf(a) in w.own && w.own[PageOf(a)] == id
  {
    forall a | a in objs ensures a !in w.at && PageOf(a) in w.own && w.own[PageOf(a)] == id {
      CarvedStarts(k.v, s.heap.spans[id], a);
      assert Within(s.heap.spans[id], PageOf(a));
    }
  }

  lemma CarveAgree(s: State, s': State, w: Witness, t: Tid, id: SpanId, objs: seq<Addr>)
    requires AgreeOk(s, w.at) && OneMoves(s, s', t) && id in s.heap.spans && s.heap.spans[id].objlist == []
    requires s'.heap.spans == s.heap.spans[id := s.heap.spans[id].(objlist := objs)]
    requires s'.caches == s.caches && s'.live == s.live && Hand(s.pc[t]) == [] && Hand(s'.pc[t]) == []
    requires forall a :: a in objs ==> a !in w.at
    ensures AgreeOk(s', CarvedIn(w, objs, id).at)
  {
    var at' := CarvedIn(w, objs, id).at;
    forall l, a ensures Holds(s', l, a) <==> a in at' && at'[a] == l {
      assert Holds(s, l, a) <==> a in w.at && w.at[a] == l;
    }
  }

  lemma CarveCover(w: Witness, id: SpanId, objs: seq<Addr>)
    requires CoverOk(w) && id in w.home && id !in w.objs && NoDup(objs) && objs != []
    requires forall a :: a in objs ==> PageOf(a) in w.own && w.own[PageOf(a)] == id
    ensures CoverOk(CarvedIn(w, objs, id))
  {
  }

  lemma CarvePlaces(s: State, s': State, w: Witness, t: Tid, id: SpanId, objs: seq<Addr>)
    requires AgreeOk(s, w.at) && PlacesOk(s, w) && OneMoves(s, s', t) && Hand(s.pc[t]) == []
    requires forall a :: a in objs ==> PageOf(a) in w.own && w.own[PageOf(a)] == id
    ensures PlacesOk(s', CarvedIn(w, objs, id))
  {
    EmptyHandPlaces(s, s', w, t);
  }

  lemma CarveLaid(v: Variant, h: Heap, h': Heap, w: Witness, id: SpanId, objs: seq<Addr>)
    requires LaidOut(v, h, w.objs) && Rewritten(h, h', id) && h'.spans[id].objsize == h.spans[id].objsize
    requires objs == Carved(v, h.spans[id])
    ensures LaidOut(v, h', w.objs[id := objs])
  {
    forall j | j in w.objs[id := objs] ensures j in h'.spans && w.objs[id := objs][j] == Carved(v, h'.spans[j]) {
      if j != id {
        assert j in h.spans && w.objs[j] == Carved(v, h.spans[j]);
      }
    }
  }

  lemma CarveSpan(k: Setup, s: State, s': State, w: Witness, t: Tid, size: nat, c: nat, num: nat, id: SpanId,
      objs: seq<Addr>)
    requires t in s.pc && s.pc[t] == Carve(size, c, num, id)
    requires id in w.home && w.home[id] == Carried(t) && SpanOk(k, s, w, id)
    requires objs == Carved(k.v, s.heap.spans[id])
    requires s' == StepCarve(k.v, s, t, size, c, num, id) && Rewritten(s.heap, s'.heap, id)
    ensures SpanOk(k, s', CarvedIn(w, objs, id), id)
  {
    RewriteTagged(s.heap, s'.heap, id, id);
  }

  lemma CarveFull(k: Setup, sp: Span, c: nat)
    requires TablesOk(k) && Serves(k, sp, c)
    ensures NoDup(Carved(k.v, sp)) && Carved(k.v, sp) != []
  {
    ClassTable(c);
    NumMovePageBounds(ClassSize(c));
    CarvedList(k.v, sp);
  }

  lemma CarveObjects(k: Setup, s: State, s': State, w: Witness, t: Tid, id: SpanId, objs: seq<Addr>)
    requires ObjectsOk(k, s, w) && Partition(s.heap, w.own) && OneMoves(s, s', t)
    requires id in w.home && id !in w.objs && Rewritten(s.heap, s'.heap, id) && s.heap.spans[id].objlist == []
    requires s'.heap.spans[id] == s.heap.spans[id].(objlist := objs)
    requires s'.caches == s.caches && s'.live == s.live && Hand(s.pc[t]) == [] && Hand(s'.pc[t]) == []
    requires objs == Carved(k.v, s.heap.spans[id]) && NoDup(objs) && objs != []
    ensures ObjectsOk(k, s', CarvedIn(w, objs, id))
  {
    CarveNew(k, s, w, id, objs);
    CarveAgree(s, s', w, t, id, objs);
    CarveCover(w, id, objs);
    CarvePlaces(s, s', w, t, id, objs);
    CarveLaid(k.v, s.heap, s'.heap, w, id, objs);
  }

  lemma CarveMoves(k: Setup, s: State, t: Tid, size: nat, c: nat, num: nat, id: SpanId)
    requires TablesOk(k) && LocksOk(s) && t in s.pc && s.pc[t] == Carve(size, c, num, id)
    requires IsOut(s.heap, id) && Serves(k, s.heap.spans[id], c)
    ensures var s' := StepCarve(k.v, s, t, size, c, num, id);
            && OneMoves(s, s', t) && LocksFollow(s, s', t) && TakesKept(s, s', t) && Rewritten(s.heap, s'.heap, id)
            && s'.caches == s.caches && s'.lists == s.lists && s'.live == s.live
            && s'.pc[t] == PublishLock(size, c, num, id)
  {
    CarveFull(k, s.heap.spans[id], c);
  }

  lemma CarveReady(k: Setup, s: State, s': State, w: Witness, t: Tid, size: nat, c: nat, num: nat, id: SpanId)
    returns (w': Witness)
    requires TablesOk(k) && ObjectsOk(k, s, w) && Partition(s.heap, w.own)
    requires t in s.pc && s.pc[t] == Carve(size, c, num, id)
    requires id in w.home && w.home[id] == Carried(t) && SpanOk(k, s, w, id)
    requires s' == StepCarve(k.v, s, t, size, c, num, id) && OneMoves(s, s', t) && Rewritten(s.heap, s'.heap, id)
    ensures OthersSame(w, w', id) && w'.home == w.home && SpanOk(k, s', w', id) && ObjectsOk(k, s', w')
  {
    var objs := Carved(k.v, s.heap.spans[id]);
    CarveFull(k, s.heap.spans[id], c);
    w' := CarvedIn(w, objs, id);
    CarveSpan(k, s, s', w, t, size, c, num, id, objs);
    CarveObjects(k, s, s', w, t, id, objs);
  }

  /** The span, seen by this thread alone, is cut into objects without any lock. */
  lemma CarveStep(k: Setup, s: State, w: Witness, t: Tid, size: nat, c: nat, num: nat, id: SpanId) returns (w': Witness)
    requires Inv(k, s, w) && t in s.pc && s.pc[t] == Carve(size, c, num, id)
    ensures Inv(k, StepCarve(k.v, s, t, size, c, num, id), w')
  {
    assert PcOk(k, s, w.own, t, s.pc[t]);
    CarrierFacts(k, s, w, t, id);
    CarveMoves(k, s, t, size, c, num, id);
    var s' := StepCarve(k.v, s, t, size, c, num, id);
    w' := CarveReady(k, s, s', w, t, size, c, num, id);
    CarrierStep(k, s, s', w, w', t, id);
  }

  // ---- publishing

  lemma SameHeap(h: Heap, id: SpanId)
    requires IsOut(h, id)
    ensures Rewritten(h, h, id)
  {
    assert h.spans == h.spans[id := h.spans[id]];
  }

  lemma PublishMoves(s: State, t: Tid, size: nat, c: nat, num: nat, id: SpanId)
    requires LocksOk(s) && t in s.pc && s.pc[t] == Publish(size, c, num, id) && c < NFREELIST && IsOut(s.heap, id)
    ensures var s' := StepPublish(s, t, size, c, num, id);
            && OneMoves(s, s', t) && LocksFollow(s, s', t) && TakesKept(s, s', t) && Rewritten(s.heap, s'.heap, id)
            && JustPublished(s', c, id)
            && s'.caches == s.caches && s'.live == s.live && s'.heap == s.heap
  {
    SameHeap(s.heap, id);
    assert HoldsBucket(s.pc[t]) == Some(c);
  }

  lemma PublishLists(s: State, s': State, home: map<SpanId, Home>, t: Tid, c: nat, id: SpanId)
    requires ListsOk(s, home) && c < NFREELIST && id in home && home[id] == Carried(t)
    requires s'.lists == s.lists[c := [id] + s.lists[c]]
    ensures ListsOk(s', home[id := Listed(c)])
  {
    assert id !in s.lists[c];
    NoDupJoin([id], s.lists[c]);
    forall d, j | 0 <= d < NFREELIST
      ensures j in s'.lists[d] <==> j in home[id := Listed(c)] && home[id := Listed(c)][j] == Listed(d)
    {
      assert j in s.lists[d] <==> j in home && home[j] == Listed(d);
    }
  }

  lemma PublishCarries(s: State, s': State, home: map<SpanId, Home>, t: Tid, c: nat, id: SpanId)
    requires CarriesOk(s, home) && OneMoves(s, s', t) && Carries(s.pc[t]) == Some(id) && Carries(s'.pc[t]).None?
    ensures CarriesOk(s', home[id := Listed(c)])
    ensures forall j :: j in home && j != id ==> home[j] != Carried(t)
  {
    assert home[id] == Carried(t);
  }

  lemma PublishObjects(k: Setup, s: State, s': State, w: Witness, t: Tid, c: nat, id: SpanId)
    requires ObjectsOk(k, s, w) && OneMoves(s, s', t) && id in w.home && w.home[id] == Carried(t)
    requires s'.heap == s.heap && s'.caches == s.caches && s'.live == s.live
    requires Hand(s.pc[t]) == [] && Hand(s'.pc[t]) == []
    ensures ObjectsOk(k, s', w.(home := w.home[id := Listed(c)]))
  {
    var home' := w.home[id := Listed(c)];
    forall l, a ensures Holds(s', l, a) <==> Holds(s, l, a) {
    }
    EmptyHandPlaces(s, s', w, t);
    forall a | a in w.at ensures PlaceOk(s'.pc, home', w.at[a], w.own[PageOf(a)]) {
      assert PlaceOk(s'.pc, w.home, w.at[a], w.own[PageOf(a)]);
    }
  }

  lemma PublishSpan(k: Setup, s: State, s': State, w: Witness, t: Tid, size: nat, c: nat, num: nat, id: SpanId)
    requires t in s.pc && s.pc[t] == Publish(size, c, num, id) && c < NFREELIST
    requires id in w.home && w.home[id] == Carried(t) && SpanOk(k, s, w, id)
    requires s'.heap == s.heap && JustPublished(s', c, id)
    ensures SpanOk(k, s', w.(home := w.home[id := Listed(c)]), id)
  {
  }

  lemma PublishTakable(w: Witness, s: State, s': State, id: SpanId, c: nat)
    requires CoverOk(w) && id in w.objs && id in s.heap.spans && s.heap.spans[id].objlist == w.objs[id]
    requires s'.heap == s.heap && c < NFREELIST && s'.lists[c] == [id] + s.lists[c]
    ensures s'.heap.spans[id].objlist != [] && id in s'.lists[c]
  {
  }

  lemma PublishHomes(s: State, s': State, w: Witness, w': Witness, t: Tid, c: nat, id: SpanId)
    requires HomesOk(s, w.home) && OneMoves(s, s', t) && t in s.pc && c < NFREELIST
    requires id in w.home && w.home[id] == Carried(t)
    requires Carries(s.pc[t]) == Some(id) && Carries(s'.pc[t]).None?
    requires s'.lists == s.lists[c := [id] + s.lists[c]] && w'.home == w.home[id := Listed(c)]
    ensures ListsOk(s', w'.home) && CarriesOk(s', w'.home)
  {
    PublishLists(s, s', w.home, t, c, id);
    PublishCarries(s, s', w.home, t, c, id);
  }

  lemma PublishParts(k: Setup, s: State, w: Witness, t: Tid, size: nat, c: nat, num: nat, id: SpanId)
    returns (s': State, w': Witness)
    requires LocksOk(s) && ObjectsOk(k, s, w)
    requires t in s.pc && s.pc[t] == Publish(size, c, num, id) && PcOk(k, s, w.own, t, s.pc[t])
    requires id in w.home && w.home[id] == Carried(t) && IsOut(s.heap, id) && SpanOk(k, s, w, id)
    ensures c < NFREELIST && s' == StepPublish(s, t, size, c, num, id)
    ensures OneMoves(s, s', t) && LocksFollow(s, s', t) && TakesKept(s, s', t) && Rewritten(s.heap, s'.heap, id)
    ensures s'.caches == s.caches && OthersSame(w, w', id) && w'.home == w.home[id := Listed(c)]
    ensures SpanOk(k, s', w', id) && ObjectsOk(k, s', w') && PcOk(k, s', w.own, t, s'.pc[t])
  {
    PublishMoves(s, t, size, c, num, id);
    s', w' := StepPublish(s, t, size, c, num, id), w.(home := w.home[id := Listed(c)]);
    PublishSpan(k, s, s', w, t, size, c, num, id);
    PublishObjects(k, s, s', w, t, c, id);
    PublishTakable(w, s, s', id, c);
  }

  lemma PublishReady(k: Setup, s: State, w: Witness, t: Tid, size: nat, c: nat, num: nat, id: SpanId)
    returns (s': State, w': Witness)
    requires LocksOk(s) && HomesOk(s, w.home) && ObjectsOk(k, s, w)
    requires t in s.pc && s.pc[t] == Publish(size, c, num, id) && PcOk(k, s, w.own, t, s.pc[t])
    requires id in w.home && w.home[id] == Carried(t) && IsOut(s.heap, id) && SpanOk(k, s, w, id)
    ensures c < NFREELIST && s' == StepPublish(s, t, size, c, num, id)
    ensures OneMoves(s, s', t) && LocksFollow(s, s', t) && TakesKept(s, s', t) && Rewritten(s.heap, s'.heap, id)
    ensures s'.caches == s.caches && OthersSame(w, w', id) && ListsOk(s', w'.home) && CarriesOk(s', w'.home)
    ensures SpanOk(k, s', w', id) && ObjectsOk(k, s', w') && PcOk(k, s', w.own, t, s'.pc[t])
  {
    s', w' := PublishParts(k, s, w, t, size, c, num, id);
    PublishHomes(s, s', w, w', t, c, id);
  }

  /** A step in which the span leaves the thread, or comes to it. */
  lemma HandOver(k: Setup, s: State, s': State, w: Witness, w': Witness, t: Tid, id: SpanId)
    requires Inv(k, s, w) && OneMoves(s, s', t) && LocksFollow(s, s', t)
    requires Rewritten(s.heap, s'.heap, id) && s'.caches == s.caches && !s.pc[t].TakeObjs?
    requires OthersSame(w, w', id) && id in w.home
    requires Carries(s.pc[t]) == Some(id) || Carries(s.pc[t]).None?
    requires ListsOk(s', w'.home) && CarriesOk(s', w'.home) && SpanOk(k, s', w', id)
    requires ObjectsOk(k, s', w') && TakesKept(s, s', t) && PcOk(k, s', w.own, t, s'.pc[t])
    ensures Inv(k, s', w')
  {
    CarriesAtMost(s, w, t, id);
    SpanStep(k, s, s', w, w', t, id);
  }

  lemma CarriesAtMost(s: State, w: Witness, t: Tid, id: SpanId)
    requires CarriesOk(s, w.home) && t in s.pc && (Carries(s.pc[t]) == Some(id) || Carries(s.pc[t]).None?)
    ensures forall j :: j in w.home && j != id ==> w.home[j] != Carried(t)
  {
  }

  /** The carved span is linked under the bucket lock. */
  lemma PublishStep(k: Setup, s: State, w: Witness, t: Tid, size: nat, c: nat, num: nat, id: SpanId)
      returns (w': Witness)
    requires Inv(k, s, w) && t in s.pc && s.pc[t] == Publish(size, c, num, id)
    ensures c < NFREELIST && Inv(k, StepPublish(s, t, size, c, num, id), w')
  {
    assert PcOk(k, s, w.own, t, s.pc[t]);
    CarrierFacts(k, s, w, t, id);
    var s';
    s', w' := PublishReady(k, s, w, t, size, c, num, id);
    HandOver(k, s, s', w, w', t, id);
  }

  // ---- taking objects

  lemma TakeAgree(s: State, s': State, at: map<Addr, Place>, t: Tid, id: SpanId, got: seq<Addr>, rest: seq<Addr>)
    requires AgreeOk(s, at) && NoDupsOk(s) && OneMoves(s, s', t) && Rewritten(s.heap, s'.heap, id)
    requires s.heap.spans[id].objlist == got + rest && s'.heap.spans[id].objlist == rest
    requires s'.caches == s.caches && s'.live == s.live
    requires Hand(s.pc[t]) == [] && Hand(s'.pc[t]) == got
    ensures AgreeOk(s', Relocate(at, got, InHand(t))) && NoDupsOk(s')
    ensures forall a :: a in got ==> a in at && at[a] == InSpan(id)
  {
    NoDupSplit(got + rest, |got|);
    assert (got + rest)[..|got|] == got && (got + rest)[|got|..] == rest;
    forall a | a in got ensures a in at && at[a] == InSpan(id) {
      assert Holds(s, InSpan(id), a);
    }
    forall l, x ensures Holds(s', l, x) <==> if x in got then l == InHand(t) else Holds(s, l, x) {
      assert Holds(s, l, x) <==> x in at && at[x] == l;
    }
    AgreeMove(s, s', at, got, InHand(t));
  }

  lemma TakePlaces(s: State, s': State, w: Witness, t: Tid, id: SpanId, c: nat, got: seq<Addr>)
    requires AgreeOk(s, w.at) && PlacesOk(s, w) && OneMoves(s, s', t) && Hand(s.pc[t]) == []
    requires HandClass(s'.pc[t]) == Some(c) && id in w.home && w.home[id] == Listed(c)
    requires forall a :: a in got ==> a in w.at && w.at[a] == InSpan(id)
    ensures PlacesOk(s', w.(at := Relocate(w.at, got, InHand(t))))
  {
    forall a | a in w.at ensures w.at[a] != InHand(t) {
      assert Holds(s, w.at[a], a);
    }
    forall a | a in got && a in w.at ensures PlaceOk(s'.pc, w.home, InHand(t), w.own[PageOf(a)]) {
      assert PlaceOk(s.pc, w.home, w.at[a], w.own[PageOf(a)]);
    }
    PlacesMove(s, s', w, t, got, InHand(t));
  }

  /** A span whose record only changes its list and its counter keeps live blocks as long as before. */
  lemma LiveKept(s: State, s': State, own: map<nat, SpanId>, id: SpanId)
    requires LiveOk(s, own) && Rewritten(s.heap, s'.heap, id) && s'.live == s.live
    requires s'.heap.spans[id].objsize == s.heap.spans[id].objsize
    ensures LiveOk(s', own)
  {
  }

  lemma TakeObjects(k: Setup, s: State, s': State, w: Witness, t: Tid, c: nat, id: SpanId, got: seq<Addr>,
      rest: seq<Addr>)
    requires ObjectsOk(k, s, w) && OneMoves(s, s', t) && Rewritten(s.heap, s'.heap, id)
    requires id in w.home && w.home[id] == Listed(c) && HandClass(s'.pc[t]) == Some(c)
    requires s.heap.spans[id].objlist == got + rest && s'.heap.spans[id].objlist == rest
    requires s'.heap.spans[id].objsize == s.heap.spans[id].objsize
    requires s'.caches == s.caches && s'.live == s.live
    requires Hand(s.pc[t]) == [] && Hand(s'.pc[t]) == got
    ensures ObjectsOk(k, s', w.(at := Relocate(w.at, got, InHand(t))))
  {
    TakeAgree(s, s', w.at, t, id, got, rest);
    TakePlaces(s, s', w, t, id, c, got);
    CoverSame(w, Relocate(w.at, got, InHand(t)));
    LaidOutSame(k.v, s.heap, s'.heap, w.objs, id);
    LiveKept(s, s', w.own, id);
  }

  /** Spans of another class than the lock holder's are not its to change. */
  lemma OtherBuckets(s: State, s': State, home: map<SpanId, Home>, t: Tid, c: nat, id: SpanId)
    requires LocksOk(s) && ListsOk(s, home) && t in s.pc && c < NFREELIST && HoldsBucket(s.pc[t]) == Some(c)
    requires id in home && home[id] == Listed(c) && Rewritten(s.heap, s'.heap, id)
    requires forall d :: 0 <= d < NFREELIST && d != c ==> s'.lists[d] == s.lists[d]
    ensures TakesKept(s, s', t)
  {
    forall u | u in s.pc && u != t && s.pc[u].TakeObjs? && Takable(s, s.pc[u])
      ensures Takable(s', s.pc[u])
    {
      assert HoldsBucket(s.pc[t]) == Some(c);
      assert HoldsBucket(s.pc[u]) == Some(s.pc[u].c);
    }
  }

  lemma TakeIs(s: State, t: Tid, size: nat, c: nat, num: nat, id: SpanId)
      returns (s': State, got: seq<Addr>, rest: seq<Addr>)
    requires LocksOk(s) && t in s.pc && s.pc[t] == TakeObjs(size, c, num, id) && c < NFREELIST && num > 0
    requires IsOut(s.heap, id) && s.heap.spans[id].objlist != []
    ensures s' == StepTake(s, t, size, c, num, id) && OneMoves(s, s', t) && LocksFollow(s, s', t)
    ensures Rewritten(s.heap, s'.heap, id) &&
      s'.heap.spans[id] == s.heap.spans[id].(objlist := rest, usecount := s.heap.spans[id].usecount + |got|)
    ensures s.heap.spans[id].objlist == got + rest && 1 <= |got| <= num
    ensures s'.pc[t] == Deliver(size, c, got) && s'.caches == s.caches && s'.lists == s.lists && s'.live == s.live
  {
    var sp := s.heap.spans[id];
    var n := if num < |sp.objlist| then num else |sp.objlist|;
    s', got, rest := StepTake(s, t, size, c, num, id), sp.objlist[..n], sp.objlist[n..];
    assert HoldsBucket(s.pc[t]) == Some(c);
  }

  lemma TakeSpan(k: Setup, s: State, s': State, w: Witness, at': map<Addr, Place>, c: nat, id: SpanId,
      got: seq<Addr>, rest: seq<Addr>)
    requires id in w.home && w.home[id] == Listed(c) && SpanOk(k, s, w, id) && Rewritten(s.heap, s'.heap, id)
    requires s'.heap.spans[id] == s.heap.spans[id].(objlist := rest, usecount := s.heap.spans[id].usecount + |got|)
    requires s.heap.spans[id].objlist == got + rest && 1 <= |got|
    ensures SpanOk(k, s', w.(at := at'), id)
  {
    RewriteTagged(s.heap, s'.heap, id, id);
  }

  lemma ListedFacts(k: Setup, s: State, w: Witness, c: nat, id: SpanId)
    requires HomesOk(s, w.home) && SpansOk(k, s, w) && c < NFREELIST && id in s.lists[c]
    ensures id in w.home && w.home[id] == Listed(c) && IsOut(s.heap, id) && SpanOk(k, s, w, id)
  {
  }

  lemma TakeReady(k: Setup, s: State, w: Witness, t: Tid, size: nat, c: nat, num: nat, id: SpanId)
    returns (s': State, at': map<Addr, Place>)
    requires LocksOk(s) && ListsOk(s, w.home) && ObjectsOk(k, s, w)
    requires t in s.pc && s.pc[t] == TakeObjs(size, c, num, id) && PcOk(k, s, w.own, t, s.pc[t])
    requires id in w.home && w.home[id] == Listed(c) && IsOut(s.heap, id) && SpanOk(k, s, w, id)
    ensures c < NFREELIST && s' == StepTake(s, t, size, c, num, id)
    ensures OneMoves(s, s', t) && LocksFollow(s, s', t) && TakesKept(s, s', t) && Rewritten(s.heap, s'.heap, id)
    ensures s'.caches == s.caches && s'.lists == s.lists && Carries(s'.pc[t]).None?
    ensures SpanOk(k, s', w.(at := at'), id) && ObjectsOk(k, s', w.(at := at')) && PcOk(k, s', w.own, t, s'.pc[t])
  {
    var got, rest;
    s', got, rest := TakeIs(s, t, size, c, num, id);
    at' := Relocate(w.at, got, InHand(t));
    OtherBuckets(s, s', w.home, t, c, id);
    TakeSpan(k, s, s', w, at', c, id, got, rest);
    TakeObjects(k, s, s', w, t, c, id, got, rest);
  }

  /** Up to `num` objects leave the span; the bucket lock is given up. */
  lemma TakeStep(k: Setup, s: State, w: Witness, t: Tid, size: nat, c: nat, num: nat, id: SpanId) returns (w': Witness)
    requires Inv(k, s, w) && t in s.pc && s.pc[t] == TakeObjs(size, c, num, id)
    ensures c < NFREELIST && Inv(k, StepTake(s, t, size, c, num, id), w')
  {
    assert PcOk(k, s, w.own, t, s.pc[t]);
    ListedFacts(k, s, w, c, id);
    var s', at' := TakeReady(k, s, w, t, size, c, num, id);
    ListedStep(k, s, s', w, at', t, id);
    w' := w.(at := at');
  }
}
