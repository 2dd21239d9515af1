/** Steps that bring an object back to its span, and take a span that is whole again off its list. */
module AllocatorReturnSteps {
  import opened Basics
  import opened SizeClass
  import opened PageHeap
  import opened PageHeapInvariant
  import opened Allocator
  import opened AllocatorInvariant
  import opened AllocatorFrames
  import opened AllocatorSpanSteps

  /** The object being returned belongs to a listed span of the class, with at least one object out. */
  lemma ReturnFacts(k: Setup, s: State, w: Witness, t: Tid, c: nat, chain: seq<Addr>, id: SpanId)
    requires LocksOk(s) && HomesOk(s, w.home) && SpansOk(k, s, w) && AgreeOk(s, w.at) && CoverOk(w) && PlacesOk(s, w)
    requires t in s.pc && s.pc[t] == ReturnPut(c, chain, id) && PcOk(k, s, w.own, t, s.pc[t])
    ensures id in w.home && w.home[id] == Listed(c) && IsOut(s.heap, id) && SpanOk(k, s, w, id)
    ensures c < NFREELIST && chain != [] && s.heap.spans[id].usecount > 0
    ensures chain[0] in w.at && w.at[chain[0]] == InHand(t) && chain[0] in w.objs[id]
  {
    assert Holds(s, InHand(t), chain[0]);
    assert PlaceOk(s.pc, w.home, w.at[chain[0]], w.own[PageOf(chain[0])]);
    assert SpanOk(k, s, w, id);
    assert HoldsBucket(s.pc[t]) == Some(c);
  }

  // ---- an object that goes back while others of its span are out

  lemma PutAgree(s: State, s': State, at: map<Addr, Place>, t: Tid, id: SpanId, a: Addr, rest: seq<Addr>)
    requires AgreeOk(s, at) && NoDupsOk(s) && OneMoves(s, s', t) && Rewritten(s.heap, s'.heap, id)
    requires s'.heap.spans[id].objlist == [a] + s.heap.spans[id].objlist
    requires s'.caches == s.caches && s'.live == s.live
    requires Hand(s.pc[t]) == [a] + rest && Hand(s'.pc[t]) == rest
    ensures AgreeOk(s', Relocate(at, [a], InSpan(id))) && NoDupsOk(s')
  {
    NoDupSplit([a] + rest, 1);
    assert ([a] + rest)[..1] == [a] && ([a] + rest)[1..] == rest;
    assert Holds(s, InHand(t), a);
    assert !Holds(s, InSpan(id), a);
    NoDupJoin([a], s.heap.spans[id].objlist);
    forall l, x ensures Holds(s', l, x) <==> if x in [a] then l == InSpan(id) else Holds(s, l, x) {
      assert Holds(s, l, x) <==> x in at && at[x] == l;
    }
    AgreeMove(s, s', at, [a], InSpan(id));
  }

  lemma PutObjects(k: Setup, s: State, s': State, w: Witness, t: Tid, id: SpanId, a: Addr, rest: seq<Addr>)
    requires ObjectsOk(k, s, w) && OneMoves(s, s', t) && Rewritten(s.heap, s'.heap, id)
    requires PageOf(a) in w.own && w.own[PageOf(a)] == id && HandClass(s'.pc[t]) == HandClass(s.pc[t])
    requires s'.heap.spans[id].objlist == [a] + s.heap.spans[id].objlist
    requires s'.heap.spans[id].objsize == s.heap.spans[id].objsize
    requires s'.caches == s.caches && s'.live == s.live
    requires Hand(s.pc[t]) == [a] + rest && Hand(s'.pc[t]) == rest
    ensures ObjectsOk(k, s', w.(at := Relocate(w.at, [a], InSpan(id))))
  {
    PutAgree(s, s', w.at, t, id, a, rest);
    PlacesMove(s, s', w, t, [a], InSpan(id));
    CoverSame(w, Relocate(w.at, [a], InSpan(id)));
    LaidOutSame(k.v, s.heap, s'.heap, w.objs, id);
    LiveKept(s, s', w.own, id);
  }

  lemma PutIs(s: State, t: Tid, c: nat, chain: seq<Addr>, id: SpanId) returns (s': State)
    requires LocksOk(s) && t in s.pc && s.pc[t] == ReturnPut(c, chain, id) && c < NFREELIST && chain != []
    requires IsOut(s.heap, id) && s.heap.spans[id].usecount > 1
    ensures s' == StepPut(s, t, c, chain, id) && OneMoves(s, s', t) && LocksFollow(s, s', t)
    ensures Rewritten(s.heap, s'.heap, id)
    ensures s'.heap.spans[id] == s.heap.spans[id].(objlist := [chain[0]] + s.heap.spans[id].objlist,
                                                   usecount := s.heap.spans[id].usecount - 1)
    ensures s'.pc[t] == ReturnNext(c, chain[1..]) && s'.caches == s.caches && s'.lists == s.lists && s'.live == s.live
  {
    s' := StepPut(s, t, c, chain, id);
    assert HoldsBucket(s.pc[t]) == Some(c);
  }

  lemma PutSpan(k: Setup, s: State, s': State, w: Witness, at': map<Addr, Place>, c: nat, id: SpanId, a: Addr)
    requires id in w.home && w.home[id] == Listed(c) && SpanOk(k, s, w, id) && Rewritten(s.heap, s'.heap, id)
    requires s.heap.spans[id].usecount > 1
    requires s'.heap.spans[id] == s.heap.spans[id].(objlist := [a] + s.heap.spans[id].objlist,
                                                    usecount := s.heap.spans[id].usecount - 1)
    ensures SpanOk(k, s', w.(at := at'), id)
  {
    RewriteTagged(s.heap, s'.heap, id, id);
  }

  lemma PutParts(k: Setup, s: State, s': State, w: Witness, t: Tid, c: nat, chain: seq<Addr>, id: SpanId)
    returns (w': Witness)
    requires ObjectsOk(k, s, w) && t in s.pc && s.pc[t] == ReturnPut(c, chain, id) && PcOk(k, s, w.own, t, s.pc[t])
    requires id in w.home && w.home[id] == Listed(c) && SpanOk(k, s, w, id) && s.heap.spans[id].usecount > 1
    requires OneMoves(s, s', t) && Rewritten(s.heap, s'.heap, id)
    requires s'.heap.spans[id] == s.heap.spans[id].(objlist := [chain[0]] + s.heap.spans[id].objlist,
                                                    usecount := s.heap.spans[id].usecount - 1)
    requires s'.pc[t] == ReturnNext(c, chain[1..]) && s'.caches == s.caches && s'.live == s.live
    ensures w'.home == w.home && OthersSame(w, w', id) && SpanOk(k, s', w', id) && ObjectsOk(k, s', w')
  {
    var at' := Relocate(w.at, [chain[0]], InSpan(id));
    w' := w.(at := at');
    PutSpan(k, s, s', w, at', c, id, chain[0]);
    assert chain == [chain[0]] + chain[1..];
    PutObjects(k, s, s', w, t, id, chain[0], chain[1..]);
    SameButAt(w, at', id);
  }

  /** The locks and the places of spans after the step, whatever becomes of the objects. */
  lemma PutWhere(s: State, home: map<SpanId, Home>, t: Tid, c: nat, chain: seq<Addr>, id: SpanId) returns (s': State)
    requires LocksOk(s) && HomesOk(s, home) && c < NFREELIST && chain != []
    requires t in s.pc && s.pc[t] == ReturnPut(c, chain, id)
    requires id in home && home[id] == Listed(c) && IsOut(s.heap, id) && s.heap.spans[id].usecount > 1
    ensures s' == StepPut(s, t, c, chain, id)
    ensures OneMoves(s, s', t) && LocksFollow(s, s', t) && TakesKept(s, s', t) && Rewritten(s.heap, s'.heap, id)
    ensures ListsOk(s', home) && CarriesOk(s', home)
    ensures s'.heap.spans[id] == s.heap.spans[id].(objlist := [chain[0]] + s.heap.spans[id].objlist,
                                                   usecount := s.heap.spans[id].usecount - 1)
    ensures s'.pc[t] == ReturnNext(c, chain[1..]) && s'.caches == s.caches && s'.live == s.live
  {
    s' := PutIs(s, t, c, chain, id);
    OtherBuckets(s, s', home, t, c, id);
    CarriesSame(s, s', home, t);
  }

  lemma PutReady(k: Setup, s: State, w: Witness, t: Tid, c: nat, chain: seq<Addr>, id: SpanId)
    returns (s': State, w': Witness)
    requires LocksOk(s) && HomesOk(s, w.home) && ObjectsOk(k, s, w)
    requires t in s.pc && s.pc[t] == ReturnPut(c, chain, id) && PcOk(k, s, w.own, t, s.pc[t])
    requires id in w.home && w.home[id] == Listed(c) && IsOut(s.heap, id) && SpanOk(k, s, w, id)
    requires s.heap.spans[id].usecount > 1
    ensures s' == StepPut(s, t, c, chain, id)
    ensures OneMoves(s, s', t) && LocksFollow(s, s', t) && TakesKept(s, s', t) && Rewritten(s.heap, s'.heap, id)
    ensures s'.caches == s.caches && OthersSame(w, w', id) && ListsOk(s', w'.home) && CarriesOk(s', w'.home)
    ensures SpanOk(k, s', w', id) && ObjectsOk(k, s', w') && PcOk(k, s', w.own, t, s'.pc[t])
  {
    s' := PutWhere(s, w.home, t, c, chain, id);
    w' := PutParts(k, s, s', w, t, c, chain, id);
  }

  lemma PutStep(k: Setup, s: State, w: Witness, t: Tid, c: nat, chain: seq<Addr>, id: SpanId) returns (w': Witness)
    requires Inv(k, s, w) && t in s.pc && s.pc[t] == ReturnPut(c, chain, id)
    requires id in s.heap.spans && s.heap.spans[id].usecount > 1
    ensures Inv(k, StepPut(s, t, c, chain, id), w')
  {
    assert PcOk(k, s, w.own, t, s.pc[t]);
    ReturnFacts(k, s, w, t, c, chain, id);
    var s';
    s', w' := PutReady(k, s, w, t, c, chain, id);
    HandOver(k, s, s', w, w', t, id);
  }

  // ---- the last object of a span

  /** The objects of a retired span are objects no longer. */
  function Retired(w: Witness, t: Tid, id: SpanId): Witness
    requires id in w.objs
  {
    w.(home := w.home[id := Carried(t)],
       objs := w.objs - {id},
       at := map a | a in w.at && a !in w.objs[id] :: w.at[a])
  }

  /** With one object out, and that one in the hand, every other object is in the span. */
  lemma LastObject(s: State, w: Witness, t: Tid, id: SpanId, a: Addr, rest: seq<Addr>)
    requires AgreeOk(s, w.at) && CoverOk(w) && PlacesOk(s, w) && NoDupsOk(s)
    requires t in s.pc && Hand(s.pc[t]) == [a] + rest && id in w.objs && id in s.heap.spans
    requires 1 + |s.heap.spans[id].objlist| == |w.objs[id]| && a in w.objs[id]
    ensures forall x :: x in w.objs[id] ==> x in w.at && (x == a || w.at[x] == InSpan(id))
    ensures forall x :: x in s.heap.spans[id].objlist ==> x in w.objs[id]
    ensures forall x :: x in rest ==> x !in w.objs[id]
  {
    var list := s.heap.spans[id].objlist;
    assert Holds(s, InHand(t), a);
    forall x | x in list ensures x in w.objs[id] && x in w.at && w.at[x] == InSpan(id) {
      assert Holds(s, InSpan(id), x);
      assert PlaceOk(s.pc, w.home, w.at[x], w.own[PageOf(x)]);
    }
    NoDupJoin([a], list);
    FullList([a] + list, w.objs[id]);
    NoDupSplit([a] + rest, 1);
    assert ([a] + rest)[..1] == [a] && ([a] + rest)[1..] == rest;
    forall x | x in rest ensures x !in w.objs[id] {
      assert Holds(s, InHand(t), x);
    }
  }

  lemma RetireAgree(s: State, s': State, w: Witness, t: Tid, id: SpanId, a: Addr, rest: seq<Addr>)
    requires AgreeOk(s, w.at) && NoDupsOk(s) && OneMoves(s, s', t) && Rewritten(s.heap, s'.heap, id) && id in w.objs
    requires s'.heap.spans[id].objlist == [] && s'.caches == s.caches && s'.live == s.live
    requires Hand(s.pc[t]) == [a] + rest && Hand(s'.pc[t]) == rest
    requires forall x :: x in w.objs[id] ==> x in w.at && (x == a || w.at[x] == InSpan(id))
    requires a in w.objs[id] && forall x :: x in s.heap.spans[id].objlist ==> x in w.objs[id]
    requires forall x :: x in rest ==> x !in w.objs[id]
    ensures AgreeOk(s', Retired(w, t, id).at) && NoDupsOk(s')
  {
    var at' := Retired(w, t, id).at;
    NoDupSplit([a] + rest, 1);
    assert ([a] + rest)[1..] == rest;
    assert Holds(s, InHand(t), a);
    forall l, x ensures Holds(s', l, x) <==> x in at' && at'[x] == l {
      assert Holds(s, l, x) <==> x in w.at && w.at[x] == l;
    }
  }

  lemma RetireCover(w: Witness, t: Tid, id: SpanId)
    requires CoverOk(w) && id in w.objs
    ensures CoverOk(Retired(w, t, id))
  {
    var w' := Retired(w, t, id);
    forall j, a | j in w'.objs && a in w'.objs[j] ensures a in w'.at && PageOf(a) in w'.own && w'.own[PageOf(a)] == j {
      assert j in w.objs && a in w.objs[j];
      assert w.own[PageOf(a)] == j != id;
      assert a !in w.objs[id];
    }
    forall a | a in w'.at ensures PageOf(a) in w'.own && w'.own[PageOf(a)] in w'.objs &&
      a in w'.objs[w'.own[PageOf(a)]] {
      assert a in w.at && a in w.objs[w.own[PageOf(a)]];
    }
  }

  lemma RetirePlaces(s: State, s': State, w: Witness, t: Tid, id: SpanId)
    requires PlacesOk(s, w) && CoverOk(w) && OneMoves(s, s', t) && id in w.objs
    requires HandClass(s'.pc[t]) == HandClass(s.pc[t])
    ensures PlacesOk(s', Retired(w, t, id))
  {
    var w' := Retired(w, t, id);
    forall x | x in w'.at ensures PlaceOk(s'.pc, w'.home, w'.at[x], w.own[PageOf(x)]) {
      assert PlaceOk(s.pc, w.home, w.at[x], w.own[PageOf(x)]);
      assert w.own[PageOf(x)] != id;
    }
  }

  lemma RetireLaid(v: Variant, h: Heap, h': Heap, w: Witness, t: Tid, id: SpanId)
    requires LaidOut(v, h, w.objs) && Rewritten(h, h', id) && id in w.objs
    ensures LaidOut(v, h', Retired(w, t, id).objs)
  {
    forall j | j in w.objs && j != id ensures w.objs[j] == Carved(v, h'.spans[j]) {
      assert w.objs[j] == Carved(v, h.spans[j]);
    }
  }

  lemma RetireObjects(k: Setup, s: State, s': State, w: Witness, t: Tid, id: SpanId, a: Addr, rest: seq<Addr>)
    requires ObjectsOk(k, s, w) && OneMoves(s, s', t) && Rewritten(s.heap, s'.heap, id) && id in w.objs
    requires 1 + |s.heap.spans[id].objlist| == |w.objs[id]| && a in w.objs[id]
    requires s'.heap.spans[id].objlist == [] && s'.heap.spans[id].objsize == s.heap.spans[id].objsize
    requires s'.caches == s.caches && s'.live == s.live && HandClass(s'.pc[t]) == HandClass(s.pc[t])
    requires Hand(s.pc[t]) == [a] + rest && Hand(s'.pc[t]) == rest
    ensures ObjectsOk(k, s', Retired(w, t, id))
  {
    LastObject(s, w, t, id, a, rest);
    RetireAgree(s, s', w, t, id, a, rest);
    RetireCover(w, t, id);
    RetirePlaces(s, s', w, t, id);
    RetireLaid(k.v, s.heap, s'.heap, w, t, id);
    LiveKept(s, s', w.own, id);
  }

  lemma RetireIs(s: State, t: Tid, c: nat, chain: seq<Addr>, id: SpanId) returns (s': State)
    requires LocksOk(s) && t in s.pc && s.pc[t] == ReturnPut(c, chain, id) && c < NFREELIST && chain != []
    requires IsOut(s.heap, id) && s.heap.spans[id].usecount == 1 && id in s.lists[c]
    ensures s' == StepPut(s, t, c, chain, id) && OneMoves(s, s', t) && LocksFollow(s, s', t)
    ensures Rewritten(s.heap, s'.heap, id) && s'.heap.spans[id] == s.heap.spans[id].(objlist := [], usecount := 0)
    ensures s'.pc[t] == GiveLock(c, chain[1..], id) && s'.caches == s.caches && s'.live == s.live
    ensures s'.lists == s.lists[c := Remove(s.lists[c], id)]
  {
    s' := StepPut(s, t, c, chain, id);
    assert HoldsBucket(s.pc[t]) == Some(c);
  }

  lemma RetireLists(s: State, s': State, home: map<SpanId, Home>, t: Tid, c: nat, id: SpanId)
    requires ListsOk(s, home) && c < NFREELIST && id in home && home[id] == Listed(c)
    requires s'.lists == s.lists[c := Remove(s.lists[c], id)]
    ensures ListsOk(s', home[id := Carried(t)])
  {
    RemoveElems(s.lists[c], id);
    forall d, j | 0 <= d < NFREELIST && j in s'.lists[d]
      ensures j in home[id := Carried(t)] && home[id := Carried(t)][j] == Listed(d)
    {
      assert j in s.lists[d];
    }
    forall j | j in home[id := Carried(t)] && home[id := Carried(t)][j].Listed?
      ensures home[j].c < NFREELIST && j in s'.lists[home[j].c]
    {
      assert j in s.lists[home[j].c];
    }
  }

  lemma RetireCarries(s: State, s': State, home: map<SpanId, Home>, t: Tid, id: SpanId)
    requires CarriesOk(s, home) && OneMoves(s, s', t) && Carries(s.pc[t]).None? && Carries(s'.pc[t]) == Some(id)
    requires id in home && home[id].Listed?
    ensures CarriesOk(s', home[id := Carried(t)])
  {
    var home' := home[id := Carried(t)];
    forall j | j in home' && home'[j].Carried?
      ensures home'[j].t in s'.pc && Carries(s'.pc[home'[j].t]) == Some(j)
    {
      assert j != id ==> Carries(s.pc[home[j].t]) == Some(j);
    }
    forall u | u in s'.pc && Carries(s'.pc[u]).Some?
      ensures Carries(s'.pc[u]).value in home' && home'[Carries(s'.pc[u]).value] == Carried(u)
    {
      assert u != t ==> Carries(s.pc[u]).Some?;
    }
  }

  lemma RetireSpan(k: Setup, s: State, s': State, w: Witness, t: Tid, c: nat, id: SpanId)
    requires id in w.home && w.home[id] == Listed(c) && SpanOk(k, s, w, id) && Rewritten(s.heap, s'.heap, id)
    requires s'.heap.spans[id] == s.heap.spans[id].(objlist := [], usecount := 0)
    requires t in s'.pc && s'.pc[t].GiveLock?
    ensures SpanOk(k, s', Retired(w, t, id), id) && OthersSame(w, Retired(w, t, id), id)
  {
    RewriteTagged(s.heap, s'.heap, id, id);
  }

  lemma RetireParts(k: Setup, s: State, s': State, w: Witness, t: Tid, c: nat, chain: seq<Addr>, id: SpanId)
    returns (w': Witness)
    requires ObjectsOk(k, s, w) && t in s.pc && s.pc[t] == ReturnPut(c, chain, id) && c < NFREELIST && chain != []
    requires id in w.home && w.home[id] == Listed(c) && SpanOk(k, s, w, id)
    requires s.heap.spans[id].usecount == 1 && chain[0] in w.objs[id]
    requires OneMoves(s, s', t) && Rewritten(s.heap, s'.heap, id)
    requires s'.heap.spans[id] == s.heap.spans[id].(objlist := [], usecount := 0)
    requires s'.pc[t] == GiveLock(c, chain[1..], id) && s'.caches == s.caches && s'.live == s.live
    ensures w'.home == w.home[id := Carried(t)] && OthersSame(w, w', id)
    ensures SpanOk(k, s', w', id) && ObjectsOk(k, s', w')
  {
    assert chain == [chain[0]] + chain[1..];
    RetireObjects(k, s, s', w, t, id, chain[0], chain[1..]);
    RetireSpan(k, s, s', w, t, c, id);
    w' := Retired(w, t, id);
  }

  /** The locks and the places of spans after the step, whatever becomes of the objects. */
  lemma RetireWhere(s: State, home: map<SpanId, Home>, t: Tid, c: nat, chain: seq<Addr>, id: SpanId) returns (s': State)
    requires LocksOk(s) && HomesOk(s, home)
    requires t in s.pc && s.pc[t] == ReturnPut(c, chain, id) && c < NFREELIST && chain != []
    requires id in home && home[id] == Listed(c) && IsOut(s.heap, id) && s.heap.spans[id].usecount == 1
    ensures s' == StepPut(s, t, c, chain, id)
    ensures OneMoves(s, s', t) && LocksFollow(s, s', t) && TakesKept(s, s', t) && Rewritten(s.heap, s'.heap, id)
    ensures ListsOk(s', home[id := Carried(t)]) && CarriesOk(s', home[id := Carried(t)])
    ensures s'.heap.spans[id] == s.heap.spans[id].(objlist := [], usecount := 0)
    ensures s'.pc[t] == GiveLock(c, chain[1..], id) && s'.caches == s.caches && s'.live == s.live
  {
    assert id in s.lists[c];
    s' := RetireIs(s, t, c, chain, id);
    OtherBuckets(s, s', home, t, c, id);
    RetireLists(s, s', home, t, c, id);
    RetireCarries(s, s', home, t, id);
  }

  lemma RetireReady(k: Setup, s: State, w: Witness, t: Tid, c: nat, chain: seq<Addr>, id: SpanId)
    returns (s': State, w': Witness)
    requires LocksOk(s) && HomesOk(s, w.home) && ObjectsOk(k, s, w)
    requires t in s.pc && s.pc[t] == ReturnPut(c, chain, id) && c < NFREELIST && chain != []
    requires id in w.home && w.home[id] == Listed(c) && IsOut(s.heap, id) && SpanOk(k, s, w, id)
    requires s.heap.spans[id].usecount == 1 && chain[0] in w.objs[id]
    ensures s' == StepPut(s, t, c, chain, id)
    ensures OneMoves(s, s', t) && LocksFollow(s, s', t) && TakesKept(s, s', t) && Rewritten(s.heap, s'.heap, id)
    ensures s'.caches == s.caches && OthersSame(w, w', id) && ListsOk(s', w'.home) && CarriesOk(s', w'.home)
    ensures SpanOk(k, s', w', id) && ObjectsOk(k, s', w') && PcOk(k, s', w.own, t, s'.pc[t])
  {
    s' := RetireWhere(s, w.home, t, c, chain, id);
    w' := RetireParts(k, s, s', w, t, c, chain, id);
  }

  /** The last object is back: the span leaves its list, and the thread carries it. */
  lemma RetireStep(k: Setup, s: State, w: Witness, t: Tid, c: nat, chain: seq<Addr>, id: SpanId) returns (w': Witness)
    requires Inv(k, s, w) && t in s.pc && s.pc[t] == ReturnPut(c, chain, id)
    requires id in s.heap.spans && s.heap.spans[id].usecount <= 1
    ensures Inv(k, StepPut(s, t, c, chain, id), w')
  {
    assert PcOk(k, s, w.own, t, s.pc[t]);
    ReturnFacts(k, s, w, t, c, chain, id);
    var s';
    s', w' := RetireReady(k, s, w, t, c, chain, id);
    HandOver(k, s, s', w, w', t, id);
  }
}
