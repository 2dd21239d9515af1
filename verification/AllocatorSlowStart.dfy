/** The slow start over whole runs: how a thread's limit for a class follows the fetches it has made. */
module AllocatorSlowStart {
  import opened SizeClass
  import opened Basics
  import opened PageHeap
  import opened Allocator
  import opened AllocatorRuns
  import opened AllocatorRequests
  import opened AllocatorEffects

  /** The move is a request of thread `t` in class `c` that its own list cannot serve. */
  predicate IsFetch(s: State, m: Move, t: Tid, c: nat)
    requires c < NFREELIST
  {
    && m.t == t && m.ev.Alloc? && ValidSize(m.ev.size) && ClassOf(m.ev.size) == c
    && t in s.pc && s.pc[t].Idle? && Cache(s, t)[c].items == []
  }

  /** Which moves of the run are fetches of the class by the thread. */
  function FetchesIn(run: seq<State>, moves: seq<Move>, t: Tid, c: nat): (r: seq<bool>)
    requires |run| == |moves| + 1 && c < NFREELIST
    ensures |r| == |moves| && forall i :: 0 <= i < |r| ==> r[i] == IsFetch(run[i], moves[i], t, c)
  {
    seq(|moves|, i requires 0 <= i < |moves| => IsFetch(run[i], moves[i], t, c))
  }

  function Count(s: seq<bool>): nat {
    if s == [] then 0 else Count(s[..|s| - 1]) + if s[|s| - 1] then 1 else 0
  }

  /** No limit of any thread changes. */
  ghost predicate LimitsSame(s: State, s': State) {
    forall t, c :: 0 <= c < NFREELIST ==> Cache(s', t)[c].maxSize == Cache(s, t)[c].maxSize
  }

  lemma FetchingKeeps(v: Variant, s: State, t: Tid, ev: Event)
    requires t in s.pc && !BadClass(s.pc[t]) && ev.Go?
    requires s.pc[t].FetchLock? || s.pc[t].FetchScan? || s.pc[t].SpanLock? || s.pc[t].SpanNew? || s.pc[t].SpanMark?
    ensures Do(v, s, t, ev).caches == s.caches
  {
    StepIs(v, s, t, ev);
  }

  lemma CarvingKeeps(v: Variant, s: State, t: Tid, ev: Event)
    requires t in s.pc && !BadClass(s.pc[t]) && ev.Go?
    requires s.pc[t].Carve? || s.pc[t].PublishLock? || s.pc[t].Publish? || s.pc[t].TakeObjs?
    ensures Do(v, s, t, ev).caches == s.caches
  {
    StepIs(v, s, t, ev);
  }

  lemma ListsKeep(v: Variant, s: State, t: Tid, ev: Event)
    requires t in s.pc && !BadClass(s.pc[t]) && ev.Go? && (s.pc[t].Deliver? || s.pc[t].Dealloc?)
    ensures LimitsSame(s, Do(v, s, t, ev))
  {
    StepIs(v, s, t, ev);
  }

  lemma ReturningKeeps(v: Variant, s: State, t: Tid, ev: Event)
    requires t in s.pc && !BadClass(s.pc[t]) && ev.Go?
    requires s.pc[t].LookupLock? || s.pc[t].Lookup? || s.pc[t].ReturnLock? || s.pc[t].ReturnNext? || s.pc[t].ReturnGet?
    ensures Do(v, s, t, ev).caches == s.caches
  {
    StepIs(v, s, t, ev);
  }

  lemma GivingKeeps(v: Variant, s: State, t: Tid, ev: Event)
    requires t in s.pc && !BadClass(s.pc[t]) && ev.Go?
    requires s.pc[t].ReturnPut? || s.pc[t].GiveLock? || s.pc[t].Give? || s.pc[t].Crashed?
    ensures Do(v, s, t, ev).caches == s.caches
  {
    StepIs(v, s, t, ev);
  }

  lemma BusyKeeps(v: Variant, s: State, t: Tid, ev: Event)
    requires t in s.pc && !s.pc[t].Idle? && ev.Go?
    ensures LimitsSame(s, Do(v, s, t, ev))
  {
    var pc := s.pc[t];
    if BadClass(pc) {
    } else if pc.FetchLock? || pc.FetchScan? || pc.SpanLock? || pc.SpanNew? || pc.SpanMark? {
      FetchingKeeps(v, s, t, ev);
    } else if pc.Carve? || pc.PublishLock? || pc.Publish? || pc.TakeObjs? {
      CarvingKeeps(v, s, t, ev);
    } else if pc.Deliver? || pc.Dealloc? {
      ListsKeep(v, s, t, ev);
    } else if pc.LookupLock? || pc.Lookup? || pc.ReturnLock? || pc.ReturnNext? || pc.ReturnGet? {
      ReturningKeeps(v, s, t, ev);
    } else {
      GivingKeeps(v, s, t, ev);
    }
  }

  lemma AllocLimits(v: Variant, s: State, t: Tid, size: nat, u: Tid, c: nat)
    requires t in s.pc && s.pc[t].Idle? && ValidSize(size) && c < NFREELIST
    ensures var s' := Do(v, s, t, Alloc(size));
            var l, fetch := Cache(s, u)[c], IsFetch(s, Move(t, Alloc(size)), u, c);
            Cache(s', u)[c].maxSize ==
              l.maxSize + if fetch && l.maxSize <= NumMoveSize(ClassSizeOf(c)) then 1 else 0
  {
    RoundUpIsClassSize(size);
    ClassTable(c);
  }

  /** The size of a class, which is never 0. */
  function ClassSizeOf(c: nat): (size: nat)
    requires c < NFREELIST
    ensures size > 0 && size == ClassSize(c)
  {
    ClassTable(c);
    ClassSize(c)
  }

  lemma FreeLimits(v: Variant, s: State, t: Tid, obj: Addr)
    requires t in s.pc && s.pc[t].Idle?
    ensures Do(v, s, t, Free(obj)).caches == s.caches
  {
  }

  /** One move changes a limit exactly when it is a fetch and the ceiling is not exceeded. */
  lemma MoveLimits(v: Variant, s: State, m: Move, s': State, t: Tid, c: nat)
    requires Makes(v, s, m, s') && c < NFREELIST
    ensures var l := Cache(s, t)[c];
            Cache(s', t)[c].maxSize ==
              l.maxSize + if IsFetch(s, m, t, c) && l.maxSize <= NumMoveSize(ClassSizeOf(c)) then 1 else 0
  {
    if !s.pc[m.t].Idle? {
      BusyKeeps(v, s, m.t, m.ev);
    } else if m.ev.Alloc? {
      AllocLimits(v, s, m.t, m.ev.size, t, c);
    } else {
      FreeLimits(v, s, m.t, m.ev.obj);
    }
  }

  /** The thread's limit for the class in every state of the run. */
  function LimitsOf(run: seq<State>, t: Tid, c: nat): (r: seq<nat>)
    requires c < NFREELIST
    ensures |r| == |run| && forall i :: 0 <= i < |r| ==> r[i] == Cache(run[i], t)[c].maxSize
  {
    seq(|run|, i requires 0 <= i < |run| => Cache(run[i], t)[c].maxSize)
  }

  /** From one state to the next the limit grows by one at a fetch, as long as it is not above the ceiling. */
  ghost predicate GrowsBy(limits: seq<nat>, fetches: seq<bool>, ceiling: nat) {
    && |limits| == |fetches| + 1
    && forall i :: 0 <= i < |fetches| ==>
         limits[i + 1] == limits[i] + if fetches[i] && limits[i] <= ceiling then 1 else 0
  }

  lemma {:induction false} SlowStart(limits: seq<nat>, fetches: seq<bool>, ceiling: nat)
    requires GrowsBy(limits, fetches, ceiling) && limits[0] == 1
    ensures limits[|fetches|] == Lesser(1 + Count(fetches), ceiling + 1)
    decreases |fetches|
  {
    if fetches != [] {
      var n := |fetches| - 1;
      SlowStart(limits[..n + 1], fetches[..n], ceiling);
      assert limits[n + 1] == limits[n] + if fetches[n] && limits[n] <= ceiling then 1 else 0;
    }
  }

  lemma RunGrows(v: Variant, run: seq<State>, moves: seq<Move>, t: Tid, c: nat)
    requires RunBy(v, run, moves) && c < NFREELIST
    ensures GrowsBy(LimitsOf(run, t, c), FetchesIn(run, moves, t, c), NumMoveSize(ClassSizeOf(c)))
    ensures LimitsOf(run, t, c)[0] == 1
  {
    var limits, fetches := LimitsOf(run, t, c), FetchesIn(run, moves, t, c);
    forall i | 0 <= i < |moves|
      ensures limits[i + 1] == limits[i] + if fetches[i] && limits[i] <= NumMoveSize(ClassSizeOf(c)) then 1 else 0
    {
      MoveLimits(v, run[i], moves[i], run[i + 1], t, c);
    }
  }

  /**
   After k fetches of a class a thread's limit is the lesser of 1 + k and one more than the ceiling of
   the class: it starts at one, grows with every fetch, and stops just above the ceiling.
   */
  lemma LimitFollowsFetches(v: Variant, run: seq<State>, moves: seq<Move>, t: Tid, c: nat)
    requires RunBy(v, run, moves) && c < NFREELIST
    ensures Cache(run[|moves|], t)[c].maxSize ==
      Lesser(1 + Count(FetchesIn(run, moves, t, c)), NumMoveSize(ClassSizeOf(c)) + 1)
  {
    RunGrows(v, run, moves, t, c);
    LimitAtEnd(run, moves, t, c, NumMoveSize(ClassSizeOf(c)));
  }

  lemma LimitAtEnd(run: seq<State>, moves: seq<Move>, t: Tid, c: nat, ceiling: nat)
    requires |run| == |moves| + 1 && c < NFREELIST && LimitsOf(run, t, c)[0] == 1
    requires GrowsBy(LimitsOf(run, t, c), FetchesIn(run, moves, t, c), ceiling)
    ensures Cache(run[|moves|], t)[c].maxSize == Lesser(1 + Count(FetchesIn(run, moves, t, c)), ceiling + 1)
  {
    SlowStart(LimitsOf(run, t, c), FetchesIn(run, moves, t, c), ceiling);
  }
}
