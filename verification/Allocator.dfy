/**
 The three-level allocator as a transition system over any number of threads.

 One step is one lock acquisition, or the work done between two lock operations together with the
 release that ends it. The system call that grows the heap is the `sys` page chosen by the step.
 A thread that reads through a wrong tag, unlinks what is not linked, or fails one of the source's
 assertions moves to `Crashed`.
 */
module Allocator {
  import opened Basics
  import opened SizeClass
  import opened PageHeap
  import opened PageHeapInvariant

  type Tid = nat

  /** A thread's list for one class: the chain, the counter kept beside it, the slow-start limit. */
  datatype FreeList = FreeList(items: seq<Addr>, size: nat, maxSize: nat)

  type FreeLists = f: seq<FreeList> | |f| == NFREELIST witness seq(NFREELIST, _ => FreeList([], 0, 1))
  type SpanLists = l: seq<seq<SpanId>> | |l| == NFREELIST witness seq(NFREELIST, _ => [])
  type Locks = l: seq<Option<Tid>> | |l| == NFREELIST witness seq(NFREELIST, _ => None)

  /** Where a thread is; `c` is a size class, `size` the bytes of its objects. */
  datatype Pc =
    | Idle
    | FetchLock(size: nat, c: nat, num: nat)                 // about to take the bucket lock
    | FetchScan(size: nat, c: nat, num: nat)                 // holds the bucket lock
    | SpanLock(size: nat, c: nat, num: nat)                  // bucket lock given up, about to take the page lock
    | SpanNew(size: nat, c: nat, num: nat)                   // holds the page lock
    | SpanMark(size: nat, c: nat, num: nat, id: SpanId)      // holds the page lock
    | Carve(size: nat, c: nat, num: nat, id: SpanId)         // holds nothing
    | PublishLock(size: nat, c: nat, num: nat, id: SpanId)   // about to retake the bucket lock
    | Publish(size: nat, c: nat, num: nat, id: SpanId)       // holds the bucket lock
    | TakeObjs(size: nat, c: nat, num: nat, id: SpanId)      // holds the bucket lock
    | Deliver(size: nat, c: nat, got: seq<Addr>)             // holds nothing
    | LookupLock(obj: Addr)                                  // about to take the page lock
    | Lookup(obj: Addr)                                      // holds the page lock
    | Dealloc(obj: Addr, id: SpanId)                         // holds nothing
    | ReturnLock(c: nat, chain: seq<Addr>)                   // about to take the bucket lock
    | ReturnNext(c: nat, chain: seq<Addr>)                   // holds the bucket lock, about to take the page lock
    | ReturnGet(c: nat, chain: seq<Addr>)                    // holds both
    | ReturnPut(c: nat, chain: seq<Addr>, id: SpanId)        // holds the bucket lock
    | GiveLock(c: nat, chain: seq<Addr>, id: SpanId)         // bucket lock given up, about to take the page lock
    | Give(c: nat, chain: seq<Addr>, id: SpanId)             // holds the page lock
    | Crashed

  datatype State = State(
    heap: Heap,
    lists: SpanLists,
    pageLock: Option<Tid>,
    bucketLock: Locks,
    caches: map<Tid, FreeLists>,
    live: map<Addr, nat>,            // blocks held by users, with their lengths
    pc: map<Tid, Pc>)

  /** What a step may choose: an idle thread's call, or the region a system call would return. */
  datatype Event = Alloc(size: nat) | Free(obj: Addr) | Go(sys: nat)

  predicate ValidSize(size: nat) {
    1 <= size <= MAXBYTES
  }

  function ClassOf(size: nat): (c: nat)
    requires ValidSize(size)
    ensures c < NFREELIST
  {
    RoundUpIsClassSize(size);
    Index(RoundUp(size))
  }

  /** Objects carved from a span of `bytes` bytes. */
  function CarveCount(v: Variant, bytes: nat, size: nat): nat
    requires size > 0
  {
    if v.carve.Intended? then bytes / size else (bytes + size - 1) / size
  }

  /** `n` consecutive objects of `size` bytes from `start` on. */
  function Objects(start: nat, size: nat, n: nat): seq<Addr> {
    if n == 0 then [] else Objects(start, size, n - 1) + [start + (n - 1) * size]
  }

  /** The objects the carving loop chains together in a span. */
  function Carved(v: Variant, sp: Span): seq<Addr> {
    if sp.objsize == 0 then []
    else Objects(sp.page * PAGESIZE, sp.objsize, CarveCount(v, sp.npage * PAGESIZE, sp.objsize))
  }

  /** The first span of a central list that still has an object. */
  function FirstWithObjects(spans: map<SpanId, Span>, l: seq<SpanId>): Option<SpanId> {
    if l == [] then None
    else if l[0] in spans && spans[l[0]].objlist != [] then Some(l[0])
    else FirstWithObjects(spans, l[1..])
  }

  function NewCache(): FreeLists {
    seq(NFREELIST, _ => FreeList([], 0, 1))
  }

  /** The thread's cache; created by its first allocation. */
  function Cache(s: State, t: Tid): FreeLists {
    if t in s.caches then s.caches[t] else NewCache()
  }

  function SetSpan(s: State, id: SpanId, sp: Span): State {
    s.(heap := s.heap.(spans := s.heap.spans[id := sp]))
  }

  function SetPc(s: State, t: Tid, pc: Pc): State {
    s.(pc := s.pc[t := pc])
  }

  function SetBucketLock(s: State, c: nat, o: Option<Tid>): State
    requires c < NFREELIST
  {
    s.(bucketLock := s.bucketLock[c := o])
  }

  /** The class whose bucket lock the thread is about to take. */
  function WantsBucket(pc: Pc): (o: Option<nat>)
    ensures o.Some? ==> o.value < NFREELIST
  {
    if (pc.FetchLock? || pc.PublishLock? || pc.ReturnLock?) && pc.c < NFREELIST then Some(pc.c) else None
  }

  predicate WantsPage(pc: Pc) {
    pc.SpanLock? || pc.LookupLock? || pc.GiveLock? || (pc.ReturnNext? && pc.chain != [])
  }

  /**
   When thread `t` can take the step. An idle thread may be asked for 1 to 256 KiB, or be handed
   an address that is live, provided it has allocated before, as `ConcurrentFree` asserts. As written,
   requests are confined to classes whose spans are tagged completely by the text of the code.
   */
  ghost predicate Enabled(v: Variant, s: State, t: Tid, ev: Event) {
    && t in s.pc && !s.pc[t].Crashed?
    && if s.pc[t].Idle? then
         || (ev.Alloc? && ValidSize(ev.size) && TagSafe(v, PagesFor(ev.size)))
         || (ev.Free? && ev.obj in s.live && t in s.caches)
       else
         && ev.Go?
         && (s.pc[t].SpanNew? ==> ev.sys > 0 && PageRange(ev.sys, NPAGES - 1) !! s.heap.pages)
         && (WantsPage(s.pc[t]) ==> s.pageLock.None?)
         && (WantsBucket(s.pc[t]).Some? ==> s.bucketLock[WantsBucket(s.pc[t]).value].None?)
  }

  /** Pages in a span of the class that serves `size` bytes. */
  function PagesFor(size: nat): nat
    requires ValidSize(size)
  {
    RoundUpIsClassSize(size);
    NumMovePage(RoundUp(size))
  }

  /** `Allocate`: pop the thread's list, or start a fetch and raise the slow-start limit. */
  function StepAlloc(s: State, t: Tid, size: nat, c: nat): State
    requires 0 < size && c < NFREELIST
  {
    var cache := Cache(s, t);
    var l := cache[c];
    if l.items != [] then
      if l.size == 0 then SetPc(s, t, Crashed)
      else
        var rest := FreeList(l.items[1..], l.size - 1, l.maxSize);
        s.(caches := s.caches[t := cache[c := rest]], live := s.live[l.items[0] := size])
    else
      var ceiling := NumMoveSize(size);
      var num := if ceiling < l.maxSize then ceiling else l.maxSize;
      var grown := if num == l.maxSize then l.(maxSize := l.maxSize + 1) else l;
      SetPc(s.(caches := s.caches[t := cache[c := grown]]), t, FetchLock(size, c, num))
  }

  /** The bucket walk of `get_one_Span`: an object to hand out, or on to the page heap. */
  function StepScan(s: State, t: Tid, size: nat, c: nat, num: nat): State
    requires c < NFREELIST
  {
    match FirstWithObjects(s.heap.spans, s.lists[c])
    case Some(id) => SetPc(s, t, TakeObjs(size, c, num, id))
    case None => SetPc(SetBucketLock(s, c, None), t, SpanLock(size, c, num))
  }

  function StepNew(v: Variant, s: State, t: Tid, size: nat, c: nat, num: nat, sys: nat): State
    requires 0 < size
  {
    var n := NumMovePage(size);
    if !(0 < n < NPAGES) then SetPc(s, t, Crashed)
    else match NewSpan(v, s.heap, n, sys)
    case Fault => SetPc(s, t, Crashed)
    case Done((h, id)) => SetPc(s.(heap := h), t, SpanMark(size, c, num, id))
  }

  /** `_isUse` and `_objsize` are set under the page lock, which is then given up. */
  function StepMark(s: State, t: Tid, size: nat, c: nat, num: nat, id: SpanId): State {
    if id !in s.heap.spans then SetPc(s, t, Crashed)
    else
      var sp := s.heap.spans[id];
      SetPc(SetSpan(s, id, sp.(isUse := true, objsize := size)).(pageLock := None), t, Carve(size, c, num, id))
  }

  function StepCarve(v: Variant, s: State, t: Tid, size: nat, c: nat, num: nat, id: SpanId): State {
    if id !in s.heap.spans then SetPc(s, t, Crashed)
    else
      var sp := s.heap.spans[id];
      SetPc(SetSpan(s, id, sp.(objlist := Carved(v, sp))), t, PublishLock(size, c, num, id))
  }

  function StepPublish(s: State, t: Tid, size: nat, c: nat, num: nat, id: SpanId): State
    requires c < NFREELIST
  {
    SetPc(s.(lists := s.lists[c := [id] + s.lists[c]]), t, TakeObjs(size, c, num, id))
  }

  /** `fetch_range_obj` cuts up to `num` objects off the span and gives the bucket lock up. */
  function StepTake(s: State, t: Tid, size: nat, c: nat, num: nat, id: SpanId): State
    requires c < NFREELIST
  {
    if id !in s.heap.spans || s.heap.spans[id].objlist == [] || num == 0 then SetPc(s, t, Crashed)
    else
      var sp := s.heap.spans[id];
      var k := if num < |sp.objlist| then num else |sp.objlist|;
      SetPc(SetBucketLock(SetSpan(s, id, sp.(objlist := sp.objlist[k..], usecount := sp.usecount + k)), c, None),
            t, Deliver(size, c, sp.objlist[..k]))
  }

  /** The first object goes to the caller, the others to the front of the thread's list. */
  function StepDeliver(s: State, t: Tid, size: nat, c: nat, got: seq<Addr>): State
    requires c < NFREELIST
  {
    if got == [] then SetPc(s, t, Crashed)
    else
      var cache := Cache(s, t);
      var l := cache[c];
      var l' := FreeList(got[1..] + l.items, l.size + |got| - 1, l.maxSize);
      SetPc(s.(caches := s.caches[t := cache[c := l']], live := s.live[got[0] := size]), t, Idle)
  }

  function PageOf(a: Addr): nat {
    a / PAGESIZE
  }

  /** `map_object_to_Span` asserts that the page is tagged; it gives the page lock up. */
  function StepLookup(s: State, t: Tid, obj: Addr): State {
    match Get(s.heap, PageOf(obj))
    case None => SetPc(s, t, Crashed)
    case Some(id) => SetPc(s.(pageLock := None), t, Dealloc(obj, id))
  }

  /** `deallocate`: push, and when the list has outgrown its limit cut `maxSize` objects off. */
  function StepDealloc(s: State, t: Tid, obj: Addr, id: SpanId): State {
    if id !in s.heap.spans || !ValidSize(s.heap.spans[id].objsize) then SetPc(s, t, Crashed)
    else
      var c, cache := Index(s.heap.spans[id].objsize), Cache(s, t);
      IndexInBounds(s.heap.spans[id].objsize);
      var l := FreeList([obj] + cache[c].items, cache[c].size + 1, cache[c].maxSize);
      if l.maxSize < l.size then
        if !(0 < l.maxSize <= |l.items|) then SetPc(s, t, Crashed)
        else
          var rest := FreeList(l.items[l.maxSize..], l.size - l.maxSize, l.maxSize);
          SetPc(s.(caches := s.caches[t := cache[c := rest]]), t, ReturnLock(c, l.items[..l.maxSize]))
      else SetPc(s.(caches := s.caches[t := cache[c := l]]), t, Idle)
  }

  function StepReturnGet(s: State, t: Tid, c: nat, chain: seq<Addr>): State {
    if chain == [] then SetPc(s, t, Crashed)
    else match Get(s.heap, PageOf(chain[0]))
    case None => SetPc(s, t, Crashed)
    case Some(id) => SetPc(s.(pageLock := None), t, ReturnPut(c, chain, id))
  }

  /** One object goes back to its span; the span itself leaves its list with its last object. */
  function StepPut(s: State, t: Tid, c: nat, chain: seq<Addr>, id: SpanId): State {
    if chain == [] || c >= NFREELIST || id !in s.heap.spans || s.heap.spans[id].usecount == 0
    then SetPc(s, t, Crashed)
    else
      var sp := s.heap.spans[id];
      if sp.usecount > 1 then
        SetPc(SetSpan(s, id, sp.(objlist := [chain[0]] + sp.objlist, usecount := sp.usecount - 1)),
              t, ReturnNext(c, chain[1..]))
      else if id !in s.lists[c] then SetPc(s, t, Crashed)
      else
        SetPc(SetBucketLock(SetSpan(s, id, sp.(objlist := [], usecount := 0)), c, None)
              .(lists := s.lists[c := Remove(s.lists[c], id)]),
              t, GiveLock(c, chain[1..], id))
  }

  function StepGive(s: State, t: Tid, c: nat, chain: seq<Addr>, id: SpanId): State {
    if id !in s.heap.spans then SetPc(s, t, Crashed)
    else match Release(s.heap, id)
    case Fault => SetPc(s, t, Crashed)
    case Done(h) => SetPc(s.(heap := h, pageLock := None), t, ReturnLock(c, chain))
  }

  function TakeBucketLock(s: State, t: Tid, c: nat, pc: Pc): State
    requires c < NFREELIST
  {
    SetPc(SetBucketLock(s, c, Some(t)), t, pc)
  }

  function TakePageLock(s: State, t: Tid, pc: Pc): State {
    SetPc(s.(pageLock := Some(t)), t, pc)
  }

  /** A class index outside the tables, or an empty object, is out of bounds. */
  predicate BadClass(pc: Pc) {
    match pc
    case FetchLock(size, c, _) => c >= NFREELIST || size == 0
    case FetchScan(size, c, _) => c >= NFREELIST || size == 0
    case SpanNew(size, c, _) => c >= NFREELIST || size == 0
    case PublishLock(size, c, _, _) => c >= NFREELIST || size == 0
    case Publish(size, c, _, _) => c >= NFREELIST || size == 0
    case TakeObjs(size, c, _, _) => c >= NFREELIST || size == 0
    case Deliver(size, c, _) => c >= NFREELIST || size == 0
    case ReturnLock(c, _) => c >= NFREELIST
    case ReturnNext(c, _) => c >= NFREELIST
    case _ => false
  }

  /** The state after thread `t` takes the step. */
  function Do(v: Variant, s: State, t: Tid, ev: Event): State
    requires t in s.pc
  {
    if BadClass(s.pc[t]) then SetPc(s, t, Crashed)
    else
      match s.pc[t]
      case Idle =>
        if ev.Alloc? && ValidSize(ev.size) then
          RoundUpIsClassSize(ev.size);
          StepAlloc(s, t, RoundUp(ev.size), ClassOf(ev.size))
        else if ev.Free? then SetPc(s.(live := s.live - {ev.obj}), t, LookupLock(ev.obj))
        else s
      case FetchLock(size, c, num) => TakeBucketLock(s, t, c, FetchScan(size, c, num))
      case FetchScan(size, c, num) => StepScan(s, t, size, c, num)
      case SpanLock(size, c, num) => TakePageLock(s, t, SpanNew(size, c, num))
      case SpanNew(size, c, num) => StepNew(v, s, t, size, c, num, if ev.Go? then ev.sys else 0)
      case SpanMark(size, c, num, id) => StepMark(s, t, size, c, num, id)
      case Carve(size, c, num, id) => StepCarve(v, s, t, size, c, num, id)
      case PublishLock(size, c, num, id) => TakeBucketLock(s, t, c, Publish(size, c, num, id))
      case Publish(size, c, num, id) => StepPublish(s, t, size, c, num, id)
      case TakeObjs(size, c, num, id) => StepTake(s, t, size, c, num, id)
      case Deliver(size, c, got) => StepDeliver(s, t, size, c, got)
      case LookupLock(obj) => TakePageLock(s, t, Lookup(obj))
      case Lookup(obj) => StepLookup(s, t, obj)
      case Dealloc(obj, id) => StepDealloc(s, t, obj, id)
      case ReturnLock(c, chain) => TakeBucketLock(s, t, c, ReturnNext(c, chain))
      case ReturnNext(c, chain) =>
        if chain == [] then SetPc(SetBucketLock(s, c, None), t, Idle)
        else TakePageLock(s, t, ReturnGet(c, chain))
      case ReturnGet(c, chain) => StepReturnGet(s, t, c, chain)
      case ReturnPut(c, chain, id) => StepPut(s, t, c, chain, id)
      case GiveLock(c, chain, id) => TakePageLock(s, t, Give(c, chain, id))
      case Give(c, chain, id) => StepGive(s, t, c, chain, id)
      case Crashed => s
  }

  ghost predicate Next(v: Variant, s: State, s': State) {
    exists t, ev :: Enabled(v, s, t, ev) && s' == Do(v, s, t, ev)
  }

  ghost predicate Init(s: State) {
    && s.heap == EmptyHeap()
    && (forall c :: 0 <= c < NFREELIST ==> s.lists[c] == [] && s.bucketLock[c].None?)
    && s.pageLock.None? && s.caches == map[] && s.live == map[]
    && forall t :: t in s.pc ==> s.pc[t] == Idle
  }

  /** A finite run, by any number of threads in any order. */
  ghost predicate Run(v: Variant, run: seq<State>) {
    && |run| > 0 && Init(run[0])
    && forall i :: 0 < i < |run| ==> Next(v, run[i - 1], run[i])
  }
}
