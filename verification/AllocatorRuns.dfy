/** Every step keeps the invariant, so every run does. */
module AllocatorRuns {
  import opened Basics
  import opened SizeClass
  import opened PageHeap
  import opened PageHeapInvariant
  import opened Allocator
  import opened AllocatorInvariant
  import opened AllocatorQuietSteps
  import opened AllocatorThreadSteps
  import opened AllocatorSpanSteps
  import opened AllocatorReturnSteps
  import opened AllocatorHeapSteps

  /** What a request looks up in the class tables. */
  lemma RequestClass(k: Setup, n: nat)
    requires TablesOk(k) && ValidSize(n)
    ensures n <= RoundUp(n) <= MAXBYTES && RoundUp(n) == k.size[ClassOf(n)]
    ensures PagesFor(n) == k.pages[ClassOf(n)] && NumMoveSize(RoundUp(n)) == k.ceiling[ClassOf(n)]
  {
    RoundUpIsClassSize(n);
    assert ClassSize(ClassOf(n)) == RoundUp(n);
  }

  lemma AllocStep(k: Setup, s: State, w: Witness, t: Tid, n: nat, size: nat, c: nat) returns (w': Witness)
    requires Inv(k, s, w) && t in s.pc && s.pc[t].Idle? && ValidSize(n) && TagSafe(k.v, PagesFor(n))
    requires size == RoundUp(n) && c == ClassOf(n)
    ensures size > 0 && Inv(k, StepAlloc(s, t, size, c), w')
  {
    RequestClass(k, n);
    if Cache(s, t)[c].items != [] {
      w' := HitStep(k, s, w, t, size, c);
    } else {
      MissStep(k, s, w, t, size, c);
      w' := w;
    }
  }

  lemma BackStep(k: Setup, s: State, w: Witness, t: Tid, c: nat, chain: seq<Addr>, id: SpanId) returns (w': Witness)
    requires Inv(k, s, w) && t in s.pc && s.pc[t] == ReturnPut(c, chain, id)
    ensures Inv(k, StepPut(s, t, c, chain, id), w')
  {
    assert PcOk(k, s, w.own, t, s.pc[t]);
    ReturnFacts(k, s, w, t, c, chain, id);
    if s.heap.spans[id].usecount > 1 {
      w' := PutStep(k, s, w, t, c, chain, id);
    } else {
      w' := RetireStep(k, s, w, t, c, chain, id);
    }
  }

  /** A thread that is not idle is at a place its class index is right for. */
  lemma NoBadClass(k: Setup, s: State, w: Witness, t: Tid)
    requires Inv(k, s, w) && t in s.pc
    ensures !BadClass(s.pc[t])
  {
    assert PcOk(k, s, w.own, t, s.pc[t]);
    var pc := s.pc[t];
    if pc.FetchLock? || pc.FetchScan? || pc.SpanNew? || pc.PublishLock? || pc.Publish? || pc.TakeObjs? || pc.Deliver? {
      assert k.size[pc.c] == ClassSize(pc.c);
    }
  }

  /** The step of a thread that is in the middle of a call, on its own. */
  lemma StepIs(v: Variant, s: State, t: Tid, ev: Event)
    requires t in s.pc && !BadClass(s.pc[t]) && ev.Go?
    ensures Do(v, s, t, ev) ==
      match s.pc[t]
      case FetchLock(size, c, num) => TakeBucketLock(s, t, c, FetchScan(size, c, num))
      case FetchScan(size, c, num) => StepScan(s, t, size, c, num)
      case SpanLock(size, c, num) => TakePageLock(s, t, SpanNew(size, c, num))
      case SpanNew(size, c, num) => StepNew(v, s, t, size, c, num, ev.sys)
      case SpanMark(size, c, num, id) => StepMark(s, t, size, c, num, id)
      case Carve(size, c, num, id) => StepCarve(v, s, t, size, c, num, id)
      case PublishLock(size, c, num, id) => TakeBucketLock(s, t, c, Publish(size, c, num, id))
      case Publish(size, c, num, id) => StepPublish(s, t, size, c, num, id)
      case TakeObjs(size, c, num, id) => StepTake(s, t, size, c, num, id)
      case Deliver(size, c, got) => StepDeliver(s, t, size, c, got)
      case LookupLock(obj) => TakePageLock(s, t, Lookup(obj))
      case Lookup(obj) => StepLookup(s, t, obj)
      case Dealloc(obj, id) => StepDealloc(s, t, obj, id)
      case ReturnLock(c, chain) => TakeBucketLock(s, t, c, ReturnNext(c, chain))
      case ReturnNext(c, chain) =>
        if chain == [] then SetPc(SetBucketLock(s, c, None), t, Idle) else TakePageLock(s, t, ReturnGet(c, chain))
      case ReturnGet(c, chain) => StepReturnGet(s, t, c, chain)
      case ReturnPut(c, chain, id) => StepPut(s, t, c, chain, id)
      case GiveLock(c, chain, id) => TakePageLock(s, t, Give(c, chain, id))
      case Give(c, chain, id) => StepGive(s, t, c, chain, id)
      case _ => s
  {
  }

  /** An allocation that finds its own list empty. */
  lemma FetchSteps(k: Setup, s: State, w: Witness, t: Tid, ev: Event) returns (w': Witness)
    requires Inv(k, s, w) && Enabled(k.v, s, t, ev) && !BadClass(s.pc[t])
    requires s.pc[t].FetchLock? || s.pc[t].FetchScan? || s.pc[t].SpanLock?
    ensures Inv(k, Do(k.v, s, t, ev), w')
  {
    StepIs(k.v, s, t, ev);
    w' := w;
    match s.pc[t]
    case FetchLock(size, c, num) => FetchLockStep(k, s, w, t, size, c, num);
    case FetchScan(size, c, num) => ScanStep(k, s, w, t, size, c, num);
    case SpanLock(size, c, num) => SpanLockStep(k, s, w, t, size, c, num);
  }

  /** A new span, seen by one thread only. */
  lemma SpanSteps(k: Setup, s: State, w: Witness, t: Tid, ev: Event) returns (w': Witness)
    requires Inv(k, s, w) && Enabled(k.v, s, t, ev) && !BadClass(s.pc[t])
    requires s.pc[t].SpanNew? || s.pc[t].SpanMark? || s.pc[t].Carve?
    ensures Inv(k, Do(k.v, s, t, ev), w')
  {
    StepIs(k.v, s, t, ev);
    w' := w;
    match s.pc[t]
    case SpanNew(size, c, num) => w' := NewStep(k, s, w, t, size, c, num, ev.sys);
    case SpanMark(size, c, num, id) => w' := MarkStep(k, s, w, t, size, c, num, id);
    case Carve(size, c, num, id) => w' := CarveStep(k, s, w, t, size, c, num, id);
  }

  /** The span joins its list and gives objects away. */
  lemma PublishSteps(k: Setup, s: State, w: Witness, t: Tid, ev: Event) returns (w': Witness)
    requires Inv(k, s, w) && Enabled(k.v, s, t, ev) && !BadClass(s.pc[t])
    requires s.pc[t].PublishLock? || s.pc[t].Publish? || s.pc[t].TakeObjs?
    ensures Inv(k, Do(k.v, s, t, ev), w')
  {
    StepIs(k.v, s, t, ev);
    w' := w;
    match s.pc[t]
    case PublishLock(size, c, num, id) => PublishLockStep(k, s, w, t, size, c, num, id);
    case Publish(size, c, num, id) => w' := PublishStep(k, s, w, t, size, c, num, id);
    case TakeObjs(size, c, num, id) => w' := TakeStep(k, s, w, t, size, c, num, id);
  }

  /** Objects enter and leave the thread's own lists. */
  lemma ListSteps(k: Setup, s: State, w: Witness, t: Tid, ev: Event) returns (w': Witness)
    requires Inv(k, s, w) && Enabled(k.v, s, t, ev) && !BadClass(s.pc[t])
    requires s.pc[t].Deliver? || s.pc[t].Dealloc?
    ensures Inv(k, Do(k.v, s, t, ev), w')
  {
    StepIs(k.v, s, t, ev);
    w' := w;
    match s.pc[t]
    case Deliver(size, c, got) => w' := DeliverStep(k, s, w, t, size, c, got);
    case Dealloc(obj, id) => w' := DeallocStep(k, s, w, t, obj, id);
  }

  /** A release looks its span up. */
  lemma LookupSteps(k: Setup, s: State, w: Witness, t: Tid, ev: Event) returns (w': Witness)
    requires Inv(k, s, w) && Enabled(k.v, s, t, ev) && !BadClass(s.pc[t])
    requires s.pc[t].LookupLock? || s.pc[t].Lookup? || s.pc[t].ReturnLock?
    ensures Inv(k, Do(k.v, s, t, ev), w')
  {
    StepIs(k.v, s, t, ev);
    w' := w;
    match s.pc[t]
    case LookupLock(obj) => LookupLockStep(k, s, w, t, obj);
    case Lookup(obj) => LookupStep(k, s, w, t, obj);
    case ReturnLock(c, chain) => ReturnLockStep(k, s, w, t, c, chain);
  }

  /** A batch goes back object by object. */
  lemma ReturnSteps(k: Setup, s: State, w: Witness, t: Tid, ev: Event) returns (w': Witness)
    requires Inv(k, s, w) && Enabled(k.v, s, t, ev) && !BadClass(s.pc[t])
    requires s.pc[t].ReturnNext? || s.pc[t].ReturnGet? || s.pc[t].ReturnPut?
    ensures Inv(k, Do(k.v, s, t, ev), w')
  {
    StepIs(k.v, s, t, ev);
    w' := w;
    match s.pc[t]
    case ReturnNext(c, chain) => ReturnNextStep(k, s, w, t, c, chain);
    case ReturnGet(c, chain) => ReturnGetStep(k, s, w, t, c, chain);
    case ReturnPut(c, chain, id) => w' := BackStep(k, s, w, t, c, chain, id);
  }

  /** A span without objects goes back. */
  lemma GiveSteps(k: Setup, s: State, w: Witness, t: Tid, ev: Event) returns (w': Witness)
    requires Inv(k, s, w) && Enabled(k.v, s, t, ev) && !BadClass(s.pc[t])
    requires s.pc[t].GiveLock? || s.pc[t].Give?
    ensures Inv(k, Do(k.v, s, t, ev), w')
  {
    StepIs(k.v, s, t, ev);
    w' := w;
    match s.pc[t]
    case GiveLock(c, chain, id) => GiveLockStep(k, s, w, t, c, chain, id);
    case Give(c, chain, id) => w' := GiveStep(k, s, w, t, c, chain, id);
  }

  lemma IdleSteps(k: Setup, s: State, w: Witness, t: Tid, ev: Event) returns (w': Witness)
    requires Inv(k, s, w) && Enabled(k.v, s, t, ev) && s.pc[t].Idle?
    ensures Inv(k, Do(k.v, s, t, ev), w')
  {
    if ev.Alloc? {
      w' := AllocStep(k, s, w, t, ev.size, RoundUp(ev.size), ClassOf(ev.size));
    } else {
      w' := FreeStep(k, s, w, t, ev.obj);
    }
  }

  /** Every step of every thread keeps the invariant. */
  lemma StepKeepsInv(k: Setup, s: State, w: Witness, t: Tid, ev: Event) returns (w': Witness)
    requires Inv(k, s, w) && Enabled(k.v, s, t, ev)
    ensures Inv(k, Do(k.v, s, t, ev), w')
  {
    NoBadClass(k, s, w, t);
    var pc := s.pc[t];
    if pc.Idle? {
      w' := IdleSteps(k, s, w, t, ev);
    } else if pc.FetchLock? || pc.FetchScan? || pc.SpanLock? {
      w' := FetchSteps(k, s, w, t, ev);
    } else if pc.SpanNew? || pc.SpanMark? || pc.Carve? {
      w' := SpanSteps(k, s, w, t, ev);
    } else if pc.PublishLock? || pc.Publish? || pc.TakeObjs? {
      w' := PublishSteps(k, s, w, t, ev);
    } else if pc.Deliver? || pc.Dealloc? {
      w' := ListSteps(k, s, w, t, ev);
    } else if pc.LookupLock? || pc.Lookup? || pc.ReturnLock? {
      w' := LookupSteps(k, s, w, t, ev);
    } else if pc.ReturnNext? || pc.ReturnGet? || pc.ReturnPut? {
      w' := ReturnSteps(k, s, w, t, ev);
    } else {
      w' := GiveSteps(k, s, w, t, ev);
    }
  }

  ghost predicate Reachable(v: Variant, s: State) {
    exists run :: Run(v, run) && run[|run| - 1] == s
  }

  lemma NextKeepsInv(k: Setup, s: State, s': State, w: Witness) returns (w': Witness)
    requires Inv(k, s, w) && Next(k.v, s, s')
    ensures Inv(k, s', w')
  {
    var t, ev :| Enabled(k.v, s, t, ev) && s' == Do(k.v, s, t, ev);
    w' := StepKeepsInv(k, s, w, t, ev);
  }

  lemma {:induction false} RunKeepsInv(k: Setup, run: seq<State>) returns (w: Witness)
    requires TablesOk(k) && Run(k.v, run)
    ensures Inv(k, run[|run| - 1], w)
    decreases |run|
  {
    if |run| == 1 {
      w := InitInv(k, run[0]);
    } else {
      var n := |run| - 1;
      var w0 := RunKeepsInv(k, run[..n]);
      assert run[..n][n - 1] == run[n - 1];
      w := NextKeepsInv(k, run[n - 1], run[n], w0);
    }
  }

  /** Every reachable state has a witness. */
  lemma ReachableInv(v: Variant, s: State) returns (k: Setup, w: Witness)
    requires Reachable(v, s)
    ensures k.v == v && Inv(k, s, w)
  {
    k := MakeSetup(v);
    var run :| Run(v, run) && run[|run| - 1] == s;
    w := RunKeepsInv(k, run);
  }
}
