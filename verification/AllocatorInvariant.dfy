/**
 The invariant of the allocator.

 The witness names, for every obtained page, its live span (`own`); for every span outside the page
 heap, the one list or thread that has it (`home`); for every span that has been carved, its objects
 (`objs`); and for every object, the one place that holds it (`at`). The state carries none of these.
 */
module AllocatorInvariant {
  import opened Basics
  import opened SizeClass
  import opened PageHeap
  import opened PageHeapInvariant
  import opened Allocator

  datatype Home = Listed(c: nat) | Carried(t: Tid)
  datatype Place = InSpan(id: SpanId) | Cached(t: Tid, c: nat) | InHand(t: Tid) | WithUser
  datatype Witness = Witness(
    own: map<nat, SpanId>, home: map<SpanId, Home>, objs: map<SpanId, seq<Addr>>, at: map<Addr, Place>)

  type Table = x: seq<nat> | |x| == NFREELIST witness seq(NFREELIST, _ => 0)

  /** The variant of the code, and per class the object size, the pages of a span and the batch ceiling. */
  datatype Setup = Setup(v: Variant, size: Table, pages: Table, ceiling: Table)

  ghost predicate TablesOk(k: Setup) {
    forall c {:trigger ClassSize(c)} :: 0 <= c < NFREELIST ==>
      && ClassSize(c) > 0 && k.size[c] == ClassSize(c)
      && k.pages[c] == NumMovePage(ClassSize(c)) && k.ceiling[c] == NumMoveSize(ClassSize(c))
  }

  predicate HoldsPage(pc: Pc) {
    pc.SpanNew? || pc.SpanMark? || pc.Lookup? || pc.ReturnGet? || pc.Give?
  }

  /** The class whose bucket lock the thread holds. */
  function HoldsBucket(pc: Pc): Option<nat> {
    if pc.FetchScan? || pc.Publish? || pc.TakeObjs? || pc.ReturnNext? || pc.ReturnGet? || pc.ReturnPut?
    then Some(pc.c) else None
  }

  /** The span the thread alone can see: fetched but not published, or taken off its list. */
  function Carries(pc: Pc): Option<SpanId> {
    if pc.SpanMark? || pc.Carve? || pc.PublishLock? || pc.Publish? || pc.GiveLock? || pc.Give?
    then Some(pc.id) else None
  }

  /** The objects the thread holds outside its free lists. */
  function Hand(pc: Pc): seq<Addr> {
    if pc.Deliver? then pc.got
    else if pc.LookupLock? || pc.Lookup? || pc.Dealloc? then [pc.obj]
    else if pc.ReturnLock? || pc.ReturnNext? || pc.ReturnGet? || pc.ReturnPut? || pc.GiveLock? || pc.Give? then pc.chain
    else []
  }

  function HandClass(pc: Pc): Option<nat> {
    if pc.Deliver? || pc.ReturnLock? || pc.ReturnNext? || pc.ReturnGet? || pc.ReturnPut? || pc.GiveLock? || pc.Give?
    then Some(pc.c) else None
  }

  predicate Holds(s: State, l: Place, a: Addr) {
    match l
    case InSpan(id) => id in s.heap.spans && a in s.heap.spans[id].objlist
    case Cached(t, c) => t in s.caches && c < NFREELIST && a in s.caches[t][c].items
    case InHand(t) => t in s.pc && a in Hand(s.pc[t])
    case WithUser => a in s.live
  }

  /** A lock is held by a thread exactly when the thread is between its acquire and its release. */
  ghost predicate LocksOk(s: State) {
    && (forall t {:trigger HoldsPage(s.pc[t])} :: t in s.pc && HoldsPage(s.pc[t]) ==> s.pageLock == Some(t))
    && (s.pageLock.Some? ==> s.pageLock.value in s.pc && HoldsPage(s.pc[s.pageLock.value]))
    && (forall t {:trigger HoldsBucket(s.pc[t])} :: t in s.pc && HoldsBucket(s.pc[t]).Some? ==>
          HoldsBucket(s.pc[t]).value < NFREELIST && s.bucketLock[HoldsBucket(s.pc[t]).value] == Some(t))
    && (forall c :: 0 <= c < NFREELIST && s.bucketLock[c].Some? ==>
          s.bucketLock[c].value in s.pc && HoldsBucket(s.pc[s.bucketLock[c].value]) == Some(c))
  }

  /** Every span outside the page heap is in exactly one list, or carried by exactly one thread. */
  ghost predicate ListsOk(s: State, home: map<SpanId, Home>) {
    && (forall c, id {:trigger id in s.lists[c]} :: 0 <= c < NFREELIST && id in s.lists[c] ==>
          id in home && home[id] == Listed(c))
    && (forall id {:trigger home[id]} :: id in home && home[id].Listed? ==>
          home[id].c < NFREELIST && id in s.lists[home[id].c])
    && (forall c :: 0 <= c < NFREELIST ==> NoDup(s.lists[c]))
  }

  ghost predicate CarriesOk(s: State, home: map<SpanId, Home>) {
    && (forall t {:trigger Carries(s.pc[t])} :: t in s.pc && Carries(s.pc[t]).Some? ==>
          Carries(s.pc[t]).value in home && home[Carries(s.pc[t]).value] == Carried(t))
    && (forall id {:trigger home[id]} :: id in home && home[id].Carried? ==>
          home[id].t in s.pc && Carries(s.pc[home[id].t]) == Some(id))
  }

  ghost predicate HomesOk(s: State, home: map<SpanId, Home>) {
    && (forall id :: id in home <==> IsOut(s.heap, id))
    && ListsOk(s, home) && CarriesOk(s, home)
  }

  /** The span is laid out for objects of class `c`. */
  predicate Serves(k: Setup, sp: Span, c: nat) {
    c < NFREELIST && sp.objsize == k.size[c] && sp.npage == k.pages[c]
  }

  predicate CarriedOk(k: Setup, sp: Span, pc: Pc) {
    && sp.usecount == 0
    && (pc.SpanMark? ==> pc.c < NFREELIST && !sp.isUse && sp.npage == k.pages[pc.c])
    && (pc.Carve? || pc.PublishLock? || pc.Publish? ==> Serves(k, sp, pc.c))
    && (!pc.SpanMark? ==> sp.isUse)
  }

  /** Carved but not published. */
  predicate Uncut(pc: Pc) {
    pc.PublishLock? || pc.Publish?
  }

  /** Published, but its first objects not cut off yet: only under the bucket lock. */
  predicate JustPublished(s: State, c: nat, id: SpanId)
    requires c < NFREELIST
  {
    && s.bucketLock[c].Some? && s.bucketLock[c].value in s.pc
    && var pc := s.pc[s.bucketLock[c].value]; pc.TakeObjs? && pc.id == id
  }

  predicate ListedOk(k: Setup, s: State, id: SpanId, c: nat, n: nat)
    requires id in s.heap.spans
  {
    var sp := s.heap.spans[id];
    && Serves(k, sp, c) && sp.isUse
    && sp.usecount + |sp.objlist| == n
    && (sp.usecount > 0 || JustPublished(s, c, id))
  }

  ghost predicate SpanOk(k: Setup, s: State, w: Witness, id: SpanId)
    requires id in w.home
  {
    && id in s.heap.spans && FullyTagged(s.heap, id)
    && match w.home[id]
       case Listed(c) => id in w.objs && ListedOk(k, s, id, c, |w.objs[id]|)
       case Carried(t) =>
         && t in s.pc && CarriedOk(k, s.heap.spans[id], s.pc[t])
         && (if Uncut(s.pc[t]) then id in w.objs && s.heap.spans[id].objlist == w.objs[id]
             else id !in w.objs && s.heap.spans[id].objlist == [])
  }

  ghost predicate SpansOk(k: Setup, s: State, w: Witness) {
    forall id {:trigger SpanOk(k, s, w, id)} :: id in w.home ==> SpanOk(k, s, w, id)
  }

  /** The objects of a carved span are what the carving loop chains together in it. */
  ghost predicate LaidOut(v: Variant, h: Heap, objs: map<SpanId, seq<Addr>>) {
    && objs.Keys <= h.spans.Keys
    && forall id {:trigger Carved(v, h.spans[id])} :: id in objs ==> objs[id] == Carved(v, h.spans[id])
  }

  /** Every place holds what the witness says, so no object is in two places. */
  ghost predicate AgreeOk(s: State, at: map<Addr, Place>) {
    forall l, a {:trigger Holds(s, l, a)} :: Holds(s, l, a) <==> a in at && at[a] == l
  }

  /** The known objects are exactly the objects of the carved spans, each in its own pages. */
  ghost predicate CoverOk(w: Witness) {
    && (forall a :: a in w.at ==>
          PageOf(a) in w.own && w.own[PageOf(a)] in w.objs && a in w.objs[w.own[PageOf(a)]])
    && (forall id, a :: id in w.objs && a in w.objs[id] ==>
          a in w.at && PageOf(a) in w.own && w.own[PageOf(a)] == id)
    && (forall id :: id in w.objs ==> id in w.home && NoDup(w.objs[id]) && w.objs[id] != [])
  }

  /** An object sits in its own span, or outside a published span in a place of that span's class. */
  ghost predicate PlaceOk(pc: map<Tid, Pc>, home: map<SpanId, Home>, l: Place, id: SpanId) {
    match l
    case InSpan(j) => j == id
    case Cached(_, c) => id in home && home[id] == Listed(c)
    case InHand(t) =>
      id in home && home[id].Listed? && t in pc
      && (HandClass(pc[t]).Some? ==> HandClass(pc[t]).value == home[id].c)
    case WithUser => id in home && home[id].Listed?
  }

  ghost predicate PlacesOk(s: State, w: Witness) {
    forall a :: a in w.at ==> PageOf(a) in w.own && PlaceOk(s.pc, w.home, w.at[a], w.own[PageOf(a)])
  }

  ghost predicate NoDupsOk(s: State) {
    && (forall id :: id in s.heap.spans ==> NoDup(s.heap.spans[id].objlist))
    && (forall t, c :: t in s.caches && 0 <= c < NFREELIST ==> NoDup(s.caches[t][c].items))
    && (forall t :: t in s.pc ==> NoDup(Hand(s.pc[t])))
  }

  /** A block in use is as long as the objects of its span. */
  ghost predicate LiveOk(s: State, own: map<nat, SpanId>) {
    forall a :: a in s.live ==>
      PageOf(a) in own && own[PageOf(a)] in s.heap.spans && s.live[a] == s.heap.spans[own[PageOf(a)]].objsize
  }

  predicate ListOk(k: Setup, l: FreeList, c: nat) {
    && c < NFREELIST
    && l.size == |l.items| && l.size <= l.maxSize
    && 1 <= l.maxSize <= k.ceiling[c] + 1
  }

  /** Counters agree with chains, and no list is longer than its slow-start limit. */
  ghost predicate CachesOk(k: Setup, s: State) {
    forall t, c :: t in s.caches && 0 <= c < NFREELIST ==> ListOk(k, s.caches[t][c], c)
  }

  /** The thread is fetching: its own list for the class is empty, and its batch fits the limit. */
  ghost predicate Fetching(k: Setup, s: State, t: Tid, size: nat, c: nat, num: nat) {
    && c < NFREELIST && size == k.size[c] && TagSafe(k.v, k.pages[c]) && t in s.caches
    && s.caches[t][c].items == []
    && 1 <= num <= s.caches[t][c].maxSize
  }

  ghost predicate PcOk(k: Setup, s: State, own: map<nat, SpanId>, t: Tid, pc: Pc) {
    match pc
    case Idle => true
    case FetchLock(size, c, num) => Fetching(k, s, t, size, c, num)
    case FetchScan(size, c, num) => Fetching(k, s, t, size, c, num)
    case SpanLock(size, c, num) => Fetching(k, s, t, size, c, num)
    case SpanNew(size, c, num) => Fetching(k, s, t, size, c, num)
    case SpanMark(size, c, num, _) => Fetching(k, s, t, size, c, num)
    case Carve(size, c, num, _) => Fetching(k, s, t, size, c, num)
    case PublishLock(size, c, num, _) => Fetching(k, s, t, size, c, num)
    case Publish(size, c, num, _) => Fetching(k, s, t, size, c, num)
    case TakeObjs(size, c, num, id) => Fetching(k, s, t, size, c, num) && Takable(s, pc)
    case Deliver(size, c, got) => got != [] && Fetching(k, s, t, size, c, |got|)
    case LookupLock(obj) => t in s.caches
    case Lookup(obj) => t in s.caches
    case Dealloc(obj, id) => t in s.caches && PageOf(obj) in own && own[PageOf(obj)] == id
    case ReturnLock(c, _) => c < NFREELIST
    case ReturnNext(c, _) => c < NFREELIST
    case ReturnGet(c, chain) => c < NFREELIST && chain != []
    case ReturnPut(c, chain, id) =>
      c < NFREELIST && chain != [] && PageOf(chain[0]) in own && own[PageOf(chain[0])] == id
    case GiveLock(c, _, _) => c < NFREELIST
    case Give(c, _, _) => c < NFREELIST
    case Crashed => false
  }

  /** The span whose objects the thread is about to cut off is listed and has some. */
  predicate Takable(s: State, pc: Pc)
    requires pc.TakeObjs?
  {
    && pc.c < NFREELIST && pc.id in s.lists[pc.c]
    && pc.id in s.heap.spans && s.heap.spans[pc.id].objlist != []
  }

  ghost predicate PcsOk(k: Setup, s: State, own: map<nat, SpanId>) {
    forall t {:trigger PcOk(k, s, own, t, s.pc[t])} :: t in s.pc ==> PcOk(k, s, own, t, s.pc[t])
  }

  ghost predicate HeapOk(h: Heap, own: map<nat, SpanId>) {
    HeapInv(h, own, {}) && EndsTagged(h, {})
  }

  ghost predicate ObjectsOk(k: Setup, s: State, w: Witness) {
    && LaidOut(k.v, s.heap, w.objs) && CoverOk(w)
    && AgreeOk(s, w.at) && PlacesOk(s, w) && NoDupsOk(s) && LiveOk(s, w.own)
  }

  ghost predicate Inv(k: Setup, s: State, w: Witness) {
    && TablesOk(k) && HeapOk(s.heap, w.own) && LocksOk(s) && HomesOk(s, w.home) && SpansOk(k, s, w)
    && ObjectsOk(k, s, w) && CachesOk(k, s) && PcsOk(k, s, w.own)
  }

  /** The tables that `SizeClass` defines. */
  lemma MakeSetup(v: Variant) returns (k: Setup)
    ensures k.v == v && TablesOk(k)
  {
    forall c: nat | c < NFREELIST ensures 0 < ClassSize(c) {
      ClassTable(c);
    }
    k := Setup(v,
               seq(NFREELIST, c requires 0 <= c < NFREELIST => ClassSize(c)),
               seq(NFREELIST, c requires 0 <= c < NFREELIST =>
                 if ClassSize(c) > 0 then NumMovePage(ClassSize(c)) else 0),
               seq(NFREELIST, c requires 0 <= c < NFREELIST =>
                 if ClassSize(c) > 0 then NumMoveSize(ClassSize(c)) else 0));
  }

  lemma InitInv(k: Setup, s: State) returns (w: Witness)
    requires TablesOk(k) && Init(s)
    ensures Inv(k, s, w)
  {
    w := Witness(map[], map[], map[], map[]);
    InitHeap(s.heap);
    InitThreads(k, s);
    assert ObjectsOk(k, s, w) && HomesOk(s, w.home);
  }

  lemma InitHeap(h: Heap)
    requires h == EmptyHeap()
    ensures HeapOk(h, map[])
  {
    assert Partition(h, map[]) && PoolOk(h);
  }

  lemma InitThreads(k: Setup, s: State)
    requires Init(s)
    ensures LocksOk(s) && CachesOk(k, s) && PcsOk(k, s, map[])
  {
  }
}
