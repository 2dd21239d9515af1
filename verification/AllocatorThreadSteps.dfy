/** Steps that move objects between users, a thread's hand and its free lists. */
module AllocatorThreadSteps {
  import opened Basics
  import opened SizeClass
  import opened PageHeap
  import opened PageHeapInvariant
  import opened Allocator
  import opened AllocatorInvariant
  import opened AllocatorFrames

  /** Thread `t`'s cache is `cache` after the step, and nothing else about the caches changes. */
  ghost predicate OneCache(s: State, s': State, t: Tid, cache: FreeLists) {
    s'.caches == s.caches[t := cache]
  }

  lemma CachesStep(k: Setup, s: State, s': State, t: Tid, c: nat, l: FreeList)
    requires CachesOk(k, s) && c < NFREELIST && ListOk(k, l, c)
    requires OneCache(s, s', t, Cache(s, t)[c := l])
    ensures CachesOk(k, s') && OtherCachesKept(s, s', t)
  {
    forall u, d | u in s'.caches && 0 <= d < NFREELIST ensures ListOk(k, s'.caches[u][d], d) {
      if u == t && d != c {
        assert s'.caches[u][d] == Cache(s, t)[d];
      }
    }
  }

  /** The thread holds no lock and carries no span, before or after. */
  predicate Unencumbered(pc: Pc) {
    !HoldsPage(pc) && HoldsBucket(pc).None? && Carries(pc).None?
  }

  lemma UserMoves(k: Setup, s: State, s': State, t: Tid)
    requires LocksOk(s) && t in s.pc && t in s'.pc && s'.pc == s.pc[t := s'.pc[t]]
    requires s' == s.(caches := s'.caches, live := s'.live, pc := s'.pc)
    requires Unencumbered(s.pc[t]) && Unencumbered(s'.pc[t])
    ensures SameSpans(k, s, s', t) && LocksFollow(s, s', t)
  {
  }

  lemma LiveSame(s: State, s': State, own: map<nat, SpanId>, w: Witness, a: Addr, size: nat)
    requires LiveOk(s, own) && s'.heap == s.heap && s'.live == s.live[a := size]
    requires PageOf(a) in own && own[PageOf(a)] in s.heap.spans && size == s.heap.spans[own[PageOf(a)]].objsize
    ensures LiveOk(s', own)
  {
  }

  /** A served request: the first object of the thread's list goes to the caller. */
  lemma HitAgree(s: State, at: map<Addr, Place>, t: Tid, c: nat, size: nat, l: FreeList, s': State)
    requires AgreeOk(s, at) && NoDupsOk(s) && t in s.caches && c < NFREELIST
    requires s.caches[t][c].items != [] && l.items == s.caches[t][c].items[1..]
    requires s' == s.(caches := s.caches[t := s.caches[t][c := l]], live := s.live[s.caches[t][c].items[0] := size])
    ensures AgreeOk(s', Relocate(at, [s.caches[t][c].items[0]], WithUser)) && NoDupsOk(s')
  {
    var items := s.caches[t][c].items;
    var a := items[0];
    assert Holds(s, Cached(t, c), a);
    NoDupSplit(items, 1);
    assert items[..1] == [a];
    forall m, x ensures Holds(s', m, x) <==> if x in [a] then m == WithUser else Holds(s, m, x) {
      if x == a {
        assert m != Cached(t, c) ==> !Holds(s, m, a);
      }
    }
    AgreeMove(s, s', at, [a], WithUser);
  }

  lemma HitObjects(k: Setup, s: State, w: Witness, t: Tid, c: nat, size: nat, l: FreeList, s': State)
    requires ObjectsOk(k, s, w) && SpansOk(k, s, w) && t in s.pc && t in s.caches
    requires c < NFREELIST && size == k.size[c]
    requires s.caches[t][c].items != [] && l.items == s.caches[t][c].items[1..]
    requires s' == s.(caches := s.caches[t := s.caches[t][c := l]], live := s.live[s.caches[t][c].items[0] := size])
    ensures ObjectsOk(k, s', w.(at := Relocate(w.at, [s.caches[t][c].items[0]], WithUser)))
  {
    var a := s.caches[t][c].items[0];
    assert Holds(s, Cached(t, c), a);
    HitAgree(s, w.at, t, c, size, l, s');
    assert PlaceOk(s.pc, w.home, w.at[a], w.own[PageOf(a)]);
    PlacesMove(s, s', w, t, [a], WithUser);
    CoverSame(w, Relocate(w.at, [a], WithUser));
    ListedSpan(k, s, w, a);
    LiveSame(s, s', w.own, w, a, size);
  }

  lemma HitStep(k: Setup, s: State, w: Witness, t: Tid, size: nat, c: nat) returns (w': Witness)
    requires Inv(k, s, w) && t in s.pc && s.pc[t].Idle? && c < NFREELIST && size == k.size[c] && size > 0
    requires Cache(s, t)[c].items != []
    ensures Inv(k, StepAlloc(s, t, size, c), w')
  {
    assert t in s.caches;
    var l := s.caches[t][c];
    assert ListOk(k, l, c);
    var s', a := StepAlloc(s, t, size, c), l.items[0];
    var rest := FreeList(l.items[1..], l.size - 1, l.maxSize);
    assert s' == s.(caches := s.caches[t := s.caches[t][c := rest]], live := s.live[a := size]);
    w' := w.(at := Relocate(w.at, [a], WithUser));
    HitObjects(k, s, w, t, c, size, rest, s');
    CachesStep(k, s, s', t, c, rest);
    UserMoves(k, s, s', t);
    ThreadStep(k, s, s', w, w'.at, t);
  }

  /** A fetch begins: only the slow-start limit of an empty list changes. */
  lemma MissPlaces(s: State, w: Witness, t: Tid, s': State)
    requires AgreeOk(s, w.at) && PlacesOk(s, w) && OneMoves(s, s', t) && s.pc[t].Idle?
    ensures PlacesOk(s', w)
  {
    forall a | a in w.at ensures PlaceOk(s'.pc, w.home, w.at[a], w.own[PageOf(a)]) {
      assert PlaceOk(s.pc, w.home, w.at[a], w.own[PageOf(a)]);
      assert Holds(s, w.at[a], a);
    }
  }

  lemma MissAgree(s: State, at: map<Addr, Place>, t: Tid, c: nat, l: FreeList, s': State)
    requires AgreeOk(s, at) && NoDupsOk(s) && t in s.pc && c < NFREELIST
    requires Cache(s, t)[c].items == [] && l.items == [] && s.pc[t].Idle?
    requires t in s'.pc && s'.pc[t].FetchLock?
    requires s' == s.(caches := s.caches[t := Cache(s, t)[c := l]], pc := s.pc[t := s'.pc[t]])
    ensures AgreeOk(s', at) && NoDupsOk(s')
  {
    forall m, x ensures Holds(s', m, x) <==> Holds(s, m, x) {
    }
  }

  lemma MissObjects(k: Setup, s: State, w: Witness, t: Tid, c: nat, l: FreeList, s': State)
    requires ObjectsOk(k, s, w) && t in s.pc && c < NFREELIST
    requires Cache(s, t)[c].items == [] && l.items == [] && s.pc[t].Idle?
    requires t in s'.pc && s'.pc[t].FetchLock?
    requires s' == s.(caches := s.caches[t := Cache(s, t)[c := l]], pc := s.pc[t := s'.pc[t]])
    ensures ObjectsOk(k, s', w)
  {
    MissAgree(s, w.at, t, c, l, s');
    MissPlaces(s, w, t, s');
  }

  lemma MissIs(k: Setup, s: State, t: Tid, size: nat, c: nat) returns (l: FreeList, num: nat)
    requires c < NFREELIST && size > 0 && k.ceiling[c] == NumMoveSize(size) && Cache(s, t)[c].items == []
    requires ListOk(k, Cache(s, t)[c], c)
    ensures ListOk(k, l, c) && l.items == [] && 1 <= num <= l.maxSize
    ensures StepAlloc(s, t, size, c) ==
            SetPc(s.(caches := s.caches[t := Cache(s, t)[c := l]]), t, FetchLock(size, c, num))
  {
    l, num := StepAlloc(s, t, size, c).caches[t][c], StepAlloc(s, t, size, c).pc[t].num;
  }

  lemma MissStep(k: Setup, s: State, w: Witness, t: Tid, size: nat, c: nat)
    requires Inv(k, s, w) && t in s.pc && s.pc[t].Idle? && c < NFREELIST && size == k.size[c] && size > 0
    requires TagSafe(k.v, k.pages[c]) && k.ceiling[c] == NumMoveSize(size) && Cache(s, t)[c].items == []
    ensures Inv(k, StepAlloc(s, t, size, c), w)
  {
    assert ListOk(k, Cache(s, t)[c], c);
    var l, num := MissIs(k, s, t, size, c);
    var s' := SetPc(s.(caches := s.caches[t := Cache(s, t)[c := l]]), t, FetchLock(size, c, num));
    MissObjects(k, s, w, t, c, l, s');
    CachesStep(k, s, s', t, c, l);
    UserMoves(k, s, s', t);
    ThreadStep(k, s, s', w, w.at, t);
  }

  /** A user gives an object up. */
  lemma FreeAgree(s: State, at: map<Addr, Place>, t: Tid, obj: Addr, s': State)
    requires AgreeOk(s, at) && t in s.pc && s.pc[t].Idle? && obj in s.live
    requires s' == SetPc(s.(live := s.live - {obj}), t, LookupLock(obj))
    ensures AgreeOk(s', Relocate(at, [obj], InHand(t)))
  {
    assert Holds(s, WithUser, obj);
    forall m, x ensures Holds(s', m, x) <==> if x in [obj] then m == InHand(t) else Holds(s, m, x) {
      if x == obj {
        assert m != WithUser ==> !Holds(s, m, x);
      }
    }
    AgreeMove(s, s', at, [obj], InHand(t));
  }

  lemma FreePlaces(s: State, w: Witness, t: Tid, obj: Addr, s': State)
    requires PlacesOk(s, w) && AgreeOk(s, w.at) && t in s.pc && s.pc[t].Idle? && obj in s.live
    requires s' == SetPc(s.(live := s.live - {obj}), t, LookupLock(obj))
    ensures PlacesOk(s', w.(at := Relocate(w.at, [obj], InHand(t))))
  {
    assert Holds(s, WithUser, obj);
    assert PlaceOk(s.pc, w.home, w.at[obj], w.own[PageOf(obj)]);
    assert HandClass(s'.pc[t]) == HandClass(s.pc[t]);
    PlacesMove(s, s', w, t, [obj], InHand(t));
  }

  lemma FreeObjects(k: Setup, s: State, w: Witness, t: Tid, obj: Addr, s': State)
    requires ObjectsOk(k, s, w) && t in s.pc && s.pc[t].Idle? && obj in s.live
    requires s' == SetPc(s.(live := s.live - {obj}), t, LookupLock(obj))
    ensures ObjectsOk(k, s', w.(at := Relocate(w.at, [obj], InHand(t))))
  {
    FreeAgree(s, w.at, t, obj, s');
    FreePlaces(s, w, t, obj, s');
    CoverSame(w, Relocate(w.at, [obj], InHand(t)));
  }

  lemma FreeStepTo(k: Setup, s: State, w: Witness, t: Tid, s': State, at': map<Addr, Place>)
    requires Inv(k, s, w) && SameSpans(k, s, s', t) && LocksFollow(s, s', t) && s'.caches == s.caches
    requires ObjectsOk(k, s', w.(at := at')) && PcOk(k, s', w.own, t, s'.pc[t])
    ensures Inv(k, s', w.(at := at'))
  {
    ThreadStep(k, s, s', w, at', t);
  }

  lemma FreeReady(k: Setup, s: State, w: Witness, t: Tid, obj: Addr) returns (s': State, at': map<Addr, Place>)
    requires LocksOk(s) && ObjectsOk(k, s, w) && t in s.pc && s.pc[t].Idle? && obj in s.live && t in s.caches
    ensures s' == SetPc(s.(live := s.live - {obj}), t, LookupLock(obj)) && s'.caches == s.caches
    ensures SameSpans(k, s, s', t) && LocksFollow(s, s', t)
    ensures ObjectsOk(k, s', w.(at := at')) && PcOk(k, s', w.own, t, s'.pc[t])
  {
    s' := SetPc(s.(live := s.live - {obj}), t, LookupLock(obj));
    at' := Relocate(w.at, [obj], InHand(t));
    FreeObjects(k, s, w, t, obj, s');
    UserMoves(k, s, s', t);
  }

  lemma FreeStep(k: Setup, s: State, w: Witness, t: Tid, obj: Addr) returns (w': Witness)
    requires Inv(k, s, w) && t in s.pc && s.pc[t].Idle? && obj in s.live && t in s.caches
    ensures Inv(k, SetPc(s.(live := s.live - {obj}), t, LookupLock(obj)), w')
  {
    var s', at' := FreeReady(k, s, w, t, obj);
    FreeStepTo(k, s, w, t, s', at');
    w' := w.(at := at');
  }

  /** A fetched batch: one object for the caller, the others for the thread's list. */
  function Delivered(at: map<Addr, Place>, t: Tid, c: nat, got: seq<Addr>): map<Addr, Place>
    requires got != []
  {
    Relocate(Relocate(at, got[1..], Cached(t, c)), [got[0]], WithUser)
  }

  lemma DeliverAgree(s: State, at: map<Addr, Place>, t: Tid, c: nat, size: nat, got: seq<Addr>, l: FreeList, s': State)
    requires AgreeOk(s, at) && NoDupsOk(s) && t in s.pc && s.pc[t] == Deliver(size, c, got) && got != []
    requires t in s.caches && c < NFREELIST && s.caches[t][c].items == [] && l.items == got[1..]
    requires s' == SetPc(s.(caches := s.caches[t := s.caches[t][c := l]], live := s.live[got[0] := size]), t, Idle)
    ensures AgreeOk(s', Delivered(at, t, c, got)) && NoDupsOk(s')
  {
    NoDupSplit(got, 1);
    assert got[..1] == [got[0]];
    var at' := Delivered(at, t, c, got);
    forall x | x in got ensures x in at && at[x] == InHand(t) {
      assert Holds(s, InHand(t), x);
    }
    forall m, x ensures Holds(s', m, x) <==> x in at' && at'[x] == m {
      assert Holds(s, m, x) <==> x in at && at[x] == m;
    }
  }

  lemma DeliverPlaces(s: State, w: Witness, t: Tid, c: nat, size: nat, got: seq<Addr>, s': State)
    requires PlacesOk(s, w) && AgreeOk(s, w.at) && OneMoves(s, s', t) && s.pc[t] == Deliver(size, c, got) &&
      s'.pc[t] == Idle
    requires got != [] && c < NFREELIST
    ensures PlacesOk(s', w.(at := Delivered(w.at, t, c, got)))
    ensures forall a :: a in got ==> a in w.at && PageOf(a) in w.own && w.own[PageOf(a)] in w.home
                                     && w.home[w.own[PageOf(a)]] == Listed(c)
  {
    var at' := Delivered(w.at, t, c, got);
    forall a | a in got
      ensures a in w.at && w.at[a] == InHand(t) && PlaceOk(s.pc, w.home, w.at[a], w.own[PageOf(a)])
    {
      assert Holds(s, InHand(t), a);
    }
    forall a | a in at' ensures PlaceOk(s'.pc, w.home, at'[a], w.own[PageOf(a)]) {
      assert PlaceOk(s.pc, w.home, w.at[a], w.own[PageOf(a)]);
      if w.at[a] == InHand(t) {
        assert Holds(s, InHand(t), a);
        assert a == got[0] || a in got[1..];
      }
    }
  }

  lemma DeliverObjects(k: Setup, s: State, w: Witness, t: Tid, size: nat, c: nat, got: seq<Addr>, l: FreeList,
      s': State)
    requires ObjectsOk(k, s, w) && SpansOk(k, s, w) && t in s.pc && s.pc[t] == Deliver(size, c, got) && got != []
    requires c < NFREELIST && size == k.size[c] && t in s.caches && s.caches[t][c].items == [] && l.items == got[1..]
    requires s' == SetPc(s.(caches := s.caches[t := s.caches[t][c := l]], live := s.live[got[0] := size]), t, Idle)
    ensures ObjectsOk(k, s', w.(at := Delivered(w.at, t, c, got)))
  {
    DeliverAgree(s, w.at, t, c, size, got, l, s');
    DeliverPlaces(s, w, t, c, size, got, s');
    CoverSame(w, Delivered(w.at, t, c, got));
    assert got[0] in got;
    ListedSpan(k, s, w, got[0]);
    LiveSame(s, s', w.own, w, got[0], size);
  }

  lemma DeliverIs(k: Setup, s: State, t: Tid, size: nat, c: nat, got: seq<Addr>, l: FreeList)
    requires c < NFREELIST && got != [] && t in s.caches && ListOk(k, s.caches[t][c], c)
    requires s.caches[t][c].items == [] && |got| <= s.caches[t][c].maxSize
    requires l == FreeList(got[1..], |got| - 1, s.caches[t][c].maxSize)
    ensures ListOk(k, l, c)
    ensures StepDeliver(s, t, size, c, got) ==
            SetPc(s.(caches := s.caches[t := s.caches[t][c := l]], live := s.live[got[0] := size]), t, Idle)
  {
    assert got[1..] + [] == got[1..];
  }

  lemma DeliverStep(k: Setup, s: State, w: Witness, t: Tid, size: nat, c: nat, got: seq<Addr>) returns (w': Witness)
    requires Inv(k, s, w) && t in s.pc && s.pc[t] == Deliver(size, c, got)
    ensures c < NFREELIST && Inv(k, StepDeliver(s, t, size, c, got), w')
  {
    assert PcOk(k, s, w.own, t, s.pc[t]);
    var l := FreeList(got[1..], |got| - 1, s.caches[t][c].maxSize);
    DeliverIs(k, s, t, size, c, got, l);
    var s' := StepDeliver(s, t, size, c, got);
    w' := w.(at := Delivered(w.at, t, c, got));
    DeliverObjects(k, s, w, t, size, c, got, l, s');
    CachesStep(k, s, s', t, c, l);
    UserMoves(k, s, s', t);
    ThreadStep(k, s, s', w, w'.at, t);
  }

  /** A freed object joins the thread's list. */
  lemma PushAgree(s: State, at: map<Addr, Place>, t: Tid, c: nat, obj: Addr, id: SpanId, l: FreeList, s': State)
    requires AgreeOk(s, at) && NoDupsOk(s) && t in s.pc && s.pc[t] == Dealloc(obj, id)
    requires t in s.caches && c < NFREELIST && l.items == [obj] + s.caches[t][c].items
    requires s' == SetPc(s.(caches := s.caches[t := s.caches[t][c := l]]), t, Idle)
    ensures AgreeOk(s', Relocate(at, [obj], Cached(t, c))) && NoDupsOk(s')
  {
    var items := s.caches[t][c].items;
    assert Holds(s, InHand(t), obj);
    assert !Holds(s, Cached(t, c), obj);
    NoDupJoin([obj], items);
    forall m, x ensures Holds(s', m, x) <==> if x in [obj] then m == Cached(t, c) else Holds(s, m, x) {
      if x == obj {
        assert m != InHand(t) ==> !Holds(s, m, x);
      }
    }
    AgreeMove(s, s', at, [obj], Cached(t, c));
  }

  /** The class a freed object goes back to is the class of its span. */
  lemma FreedClass(k: Setup, s: State, w: Witness, t: Tid, obj: Addr, id: SpanId) returns (c: nat)
    requires TablesOk(k) && ObjectsOk(k, s, w) && SpansOk(k, s, w) && ListsOk(s, w.home)
    requires t in s.pc && s.pc[t] == Dealloc(obj, id) && PageOf(obj) in w.own && w.own[PageOf(obj)] == id
    ensures obj in w.at && w.at[obj] == InHand(t)
    ensures c < NFREELIST && id in w.home && w.home[id] == Listed(c) && id in s.heap.spans
    ensures ValidSize(s.heap.spans[id].objsize) && Index(s.heap.spans[id].objsize) == c
  {
    assert Holds(s, InHand(t), obj);
    assert PlaceOk(s.pc, w.home, w.at[obj], w.own[PageOf(obj)]);
    c := w.home[id].c;
    ListedSpan(k, s, w, obj);
    ClassTable(c);
  }

  lemma PushObjects(k: Setup, s: State, w: Witness, t: Tid, c: nat, obj: Addr, id: SpanId, l: FreeList, s': State)
    requires ObjectsOk(k, s, w) && t in s.pc && s.pc[t] == Dealloc(obj, id)
    requires obj in w.at && w.own[PageOf(obj)] in w.home && w.home[w.own[PageOf(obj)]] == Listed(c)
    requires t in s.caches && c < NFREELIST && l.items == [obj] + s.caches[t][c].items
    requires s' == SetPc(s.(caches := s.caches[t := s.caches[t][c := l]]), t, Idle)
    ensures ObjectsOk(k, s', w.(at := Relocate(w.at, [obj], Cached(t, c))))
  {
    PushAgree(s, w.at, t, c, obj, id, l, s');
    PlacesMove(s, s', w, t, [obj], Cached(t, c));
    CoverSame(w, Relocate(w.at, [obj], Cached(t, c)));
  }

  /** An overgrown list is cut: `maxSize` objects, the freed one first, go back together. */
  lemma CutAgree(s: State, at: map<Addr, Place>, t: Tid, c: nat, obj: Addr, id: SpanId, n: nat, l: FreeList, s': State)
    requires AgreeOk(s, at) && NoDupsOk(s) && t in s.pc && s.pc[t] == Dealloc(obj, id)
    requires t in s.caches && c < NFREELIST && 0 < n <= 1 + |s.caches[t][c].items|
    requires l.items == ([obj] + s.caches[t][c].items)[n..]
    requires s' == SetPc(s.(caches := s.caches[t := s.caches[t][c := l]]), t,
                         ReturnLock(c, ([obj] + s.caches[t][c].items)[..n]))
    ensures AgreeOk(s', Relocate(at, ([obj] + s.caches[t][c].items)[..n], InHand(t))) && NoDupsOk(s')
    ensures forall a :: a in ([obj] + s.caches[t][c].items)[..n] ==>
              a == obj || (a in at && at[a] == Cached(t, c))
    ensures obj in ([obj] + s.caches[t][c].items)[..n]
  {
    var items := s.caches[t][c].items;
    var all := [obj] + items;
    assert Holds(s, InHand(t), obj);
    assert !Holds(s, Cached(t, c), obj);
    NoDupJoin([obj], items);
    NoDupSplit(all, n);
    var chain := all[..n];
    assert chain[0] == obj;
    forall a | a in chain ensures a in at && (a == obj || at[a] == Cached(t, c)) {
      assert a == obj || Holds(s, Cached(t, c), a);
    }
    forall m, x ensures Holds(s', m, x) <==> if x in chain then m == InHand(t) else Holds(s, m, x) {
      if x in chain {
        assert x == obj || Holds(s, Cached(t, c), x);
        assert m != InHand(t) && m != Cached(t, c) ==> !Holds(s, m, x);
      }
    }
    AgreeMove(s, s', at, chain, InHand(t));
  }

  lemma CutObjects(k: Setup, s: State, w: Witness, t: Tid, c: nat, obj: Addr, id: SpanId, n: nat, l: FreeList,
      s': State)
    requires ObjectsOk(k, s, w) && t in s.pc && s.pc[t] == Dealloc(obj, id)
    requires obj in w.at && w.own[PageOf(obj)] in w.home && w.home[w.own[PageOf(obj)]] == Listed(c)
    requires t in s.caches && c < NFREELIST && 0 < n <= 1 + |s.caches[t][c].items|
    requires l.items == ([obj] + s.caches[t][c].items)[n..]
    requires s' == SetPc(s.(caches := s.caches[t := s.caches[t][c := l]]), t,
                         ReturnLock(c, ([obj] + s.caches[t][c].items)[..n]))
    ensures ObjectsOk(k, s', w.(at := Relocate(w.at, ([obj] + s.caches[t][c].items)[..n], InHand(t))))
  {
    var chain := ([obj] + s.caches[t][c].items)[..n];
    CutAgree(s, w.at, t, c, obj, id, n, l, s');
    forall a | a in w.at && w.at[a] == InHand(t) ensures a in chain {
      assert Holds(s, InHand(t), a);
    }
    forall a | a in chain && a in w.at ensures PlaceOk(s'.pc, w.home, InHand(t), w.own[PageOf(a)]) {
      assert PlaceOk(s.pc, w.home, w.at[a], w.own[PageOf(a)]);
    }
    PlacesMove(s, s', w, t, chain, InHand(t));
    CoverSame(w, Relocate(w.at, chain, InHand(t)));
  }

  /** A step that rewrites one free list of the thread. */
  lemma ListStep(k: Setup, s: State, w: Witness, at': map<Addr, Place>, t: Tid, c: nat, l: FreeList, q: Pc)
    requires Inv(k, s, w) && t in s.pc && s.pc[t].Dealloc? && t in s.caches && c < NFREELIST && ListOk(k, l, c)
    requires q.Idle? || (q.ReturnLock? && q.c == c)
    requires ObjectsOk(k, SetPc(s.(caches := s.caches[t := s.caches[t][c := l]]), t, q), w.(at := at'))
    ensures Inv(k, SetPc(s.(caches := s.caches[t := s.caches[t][c := l]]), t, q), w.(at := at'))
  {
    var s' := SetPc(s.(caches := s.caches[t := s.caches[t][c := l]]), t, q);
    CachesStep(k, s, s', t, c, l);
    UserMoves(k, s, s', t);
    ThreadStep(k, s, s', w, at', t);
  }

  lemma DeallocIs(k: Setup, s: State, t: Tid, obj: Addr, id: SpanId, c: nat, l: FreeList, q: Pc)
    requires t in s.caches && c < NFREELIST && ListOk(k, s.caches[t][c], c) && id in s.heap.spans
    requires s.caches[t][c].size < s.caches[t][c].maxSize ==>
      l == FreeList([obj] + s.caches[t][c].items, s.caches[t][c].size + 1, s.caches[t][c].maxSize) && q == Idle
    requires s.caches[t][c].size == s.caches[t][c].maxSize ==>
               var all := [obj] + s.caches[t][c].items;
               l == FreeList(all[s.caches[t][c].maxSize..], 1, s.caches[t][c].maxSize) &&
                 q == ReturnLock(c, all[..s.caches[t][c].maxSize])
    requires ValidSize(s.heap.spans[id].objsize) && Index(s.heap.spans[id].objsize) == c
    ensures ListOk(k, l, c)
    ensures StepDealloc(s, t, obj, id) == SetPc(s.(caches := s.caches[t := s.caches[t][c := l]]), t, q)
  {
  }

  lemma DeallocObjects(k: Setup, s: State, w: Witness, t: Tid, obj: Addr, id: SpanId, c: nat)
    returns (at': map<Addr, Place>, l: FreeList, q: Pc)
    requires ObjectsOk(k, s, w) && t in s.pc && s.pc[t] == Dealloc(obj, id)
    requires obj in w.at && w.own[PageOf(obj)] in w.home && w.home[w.own[PageOf(obj)]] == Listed(c)
    requires t in s.caches && c < NFREELIST && ListOk(k, s.caches[t][c], c) && id in s.heap.spans
    requires ValidSize(s.heap.spans[id].objsize) && Index(s.heap.spans[id].objsize) == c
    ensures ListOk(k, l, c) && (q.Idle? || (q.ReturnLock? && q.c == c))
    ensures StepDealloc(s, t, obj, id) == SetPc(s.(caches := s.caches[t := s.caches[t][c := l]]), t, q)
    ensures ObjectsOk(k, SetPc(s.(caches := s.caches[t := s.caches[t][c := l]]), t, q), w.(at := at'))
  {
    var was := s.caches[t][c];
    var all, n := [obj] + was.items, was.maxSize;
    if was.maxSize <= was.size {
      l, q := FreeList(all[n..], 1, n), ReturnLock(c, all[..n]);
      at' := Relocate(w.at, all[..n], InHand(t));
      CutObjects(k, s, w, t, c, obj, id, n, l, SetPc(s.(caches := s.caches[t := s.caches[t][c := l]]), t, q));
    } else {
      l, q := FreeList(all, was.size + 1, was.maxSize), Idle;
      at' := Relocate(w.at, [obj], Cached(t, c));
      PushObjects(k, s, w, t, c, obj, id, l, SetPc(s.(caches := s.caches[t := s.caches[t][c := l]]), t, q));
    }
    DeallocIs(k, s, t, obj, id, c, l, q);
  }

  lemma DeallocStep(k: Setup, s: State, w: Witness, t: Tid, obj: Addr, id: SpanId) returns (w': Witness)
    requires Inv(k, s, w) && t in s.pc && s.pc[t] == Dealloc(obj, id)
    ensures Inv(k, StepDealloc(s, t, obj, id), w')
  {
    assert PcOk(k, s, w.own, t, s.pc[t]);
    var c := FreedClass(k, s, w, t, obj, id);
    assert ListOk(k, s.caches[t][c], c);
    var at', l, q := DeallocObjects(k, s, w, t, obj, id, c);
    ListStep(k, s, w, at', t, c, l, q);
    w' := w.(at := at');
  }
}
