/** No run of the allocator deadlocks. */
module AllocatorProgress {
  import opened Basics
  import opened SizeClass
  import opened PageHeap
  import opened Allocator
  import opened AllocatorInvariant
  import opened AllocatorRuns

  /** Thread `t` is about to take a lock that thread `u` holds. */
  predicate WaitsFor(s: State, t: Tid, u: Tid) {
    && t in s.pc && u in s.pc
    && (|| (WantsPage(s.pc[t]) && s.pageLock == Some(u))
        || (WantsBucket(s.pc[t]).Some? && s.bucketLock[WantsBucket(s.pc[t]).value] == Some(u)))
  }

  /** The page lock is above the bucket locks, which are above holding nothing. */
  function Level(pc: Pc): nat {
    if HoldsPage(pc) then 2 else if HoldsBucket(pc).Some? then 1 else 0
  }

  /** The holder a thread waits for is at a higher level than the waiting thread. */
  lemma WaitingClimbs(v: Variant, s: State, t: Tid, u: Tid)
    requires Reachable(v, s) && WaitsFor(s, t, u)
    ensures Level(s.pc[t]) < Level(s.pc[u])
  {
    var k, w := ReachableInv(v, s);
  }

  /** A thread that holds the page lock waits for nothing, and no thread holds two bucket locks. */
  lemma LockDiscipline(v: Variant, s: State, t: Tid, c: nat, d: nat)
    requires Reachable(v, s) && t in s.pc && c < NFREELIST && d < NFREELIST
    ensures s.pageLock == Some(t) ==> !WantsPage(s.pc[t]) && WantsBucket(s.pc[t]).None?
    ensures s.bucketLock[c] == Some(t) ==> WantsBucket(s.pc[t]).None?
    ensures s.bucketLock[c] == Some(t) && s.bucketLock[d] == Some(t) ==> c == d
  {
    var k, w := ReachableInv(v, s);
  }

  /** A chain of threads, each waiting for the next. */
  ghost predicate WaitChain(s: State, chain: seq<Tid>) {
    |chain| > 0 && chain[0] in s.pc && forall i :: 0 < i < |chain| ==> WaitsFor(s, chain[i - 1], chain[i])
  }

  lemma {:induction false} ChainClimbs(v: Variant, s: State, chain: seq<Tid>)
    requires Reachable(v, s) && WaitChain(s, chain)
    ensures chain[|chain| - 1] in s.pc
    ensures Level(s.pc[chain[|chain| - 1]]) >= Level(s.pc[chain[0]]) + |chain| - 1
    decreases |chain|
  {
    if |chain| > 1 {
      var n := |chain| - 1;
      ChainClimbs(v, s, chain[..n]);
      assert WaitsFor(s, chain[n - 1], chain[n]);
      WaitingClimbs(v, s, chain[n - 1], chain[n]);
    }
  }

  /** No chain of waits has more than three threads, so none returns to where it began. */
  lemma NoWaitCycle(v: Variant, s: State, chain: seq<Tid>)
    requires Reachable(v, s) && WaitChain(s, chain)
    ensures |chain| <= 3 && (|chain| > 1 ==> chain[|chain| - 1] != chain[0])
  {
    ChainClimbs(v, s, chain);
  }

  /** A region the system has not handed out: there always is one in an unbounded address space. */
  lemma {:induction false} FreshRegion(pages: set<nat>) returns (sys: nat)
    ensures sys > 0 && forall p :: p in pages ==> p < sys
    decreases |pages|
  {
    if pages == {} {
      sys := 1;
    } else {
      var p :| p in pages;
      var q := FreshRegion(pages - {p});
      sys := if q <= p then p + 1 else q;
      forall x | x in pages ensures x < sys {
        assert x == p || x in pages - {p};
      }
    }
  }

  ghost predicate CanMove(v: Variant, s: State, t: Tid) {
    exists ev :: Enabled(v, s, t, ev)
  }

  /** A thread in the middle of a call moves unless the lock it wants is taken. */
  lemma MovesUnlessBlocked(v: Variant, s: State, t: Tid)
    requires t in s.pc && !s.pc[t].Idle? && !s.pc[t].Crashed?
    requires WantsPage(s.pc[t]) ==> s.pageLock.None?
    requires WantsBucket(s.pc[t]).Some? ==> s.bucketLock[WantsBucket(s.pc[t]).value].None?
    ensures CanMove(v, s, t)
  {
    var sys := FreshRegion(s.heap.pages);
    assert PageRange(sys, NPAGES - 1) !! s.heap.pages;
    assert Enabled(v, s, t, Go(sys));
  }

  lemma Holders(k: Setup, s: State, w: Witness)
    requires Inv(k, s, w)
    ensures LocksOk(s) && forall t :: t in s.pc ==> !s.pc[t].Crashed?
  {
    forall t | t in s.pc ensures !s.pc[t].Crashed? {
      assert PcOk(k, s, w.own, t, s.pc[t]);
    }
  }

  lemma LevelTwoMoves(v: Variant, s: State, t: Tid)
    requires LocksOk(s) && t in s.pc && HoldsPage(s.pc[t])
    ensures CanMove(v, s, t)
  {
    MovesUnlessBlocked(v, s, t);
  }

  lemma LevelOneMoves(v: Variant, s: State, t: Tid)
    requires LocksOk(s) && s.pageLock.None? && t in s.pc && HoldsBucket(s.pc[t]).Some?
    ensures CanMove(v, s, t)
  {
    MovesUnlessBlocked(v, s, t);
  }

  /** In every reachable state where some call is unfinished, some unfinished call can take a step. */
  lemma NoDeadlock(v: Variant, s: State, t: Tid) returns (u: Tid)
    requires Reachable(v, s) && t in s.pc && !s.pc[t].Idle?
    ensures u in s.pc && !s.pc[u].Idle? && CanMove(v, s, u)
  {
    var k, w := ReachableInv(v, s);
    Holders(k, s, w);
    if s.pageLock.Some? {
      u := s.pageLock.value;
      LevelTwoMoves(v, s, u);
    } else if WantsBucket(s.pc[t]).Some? && s.bucketLock[WantsBucket(s.pc[t]).value].Some? {
      u := s.bucketLock[WantsBucket(s.pc[t]).value].value;
      LevelOneMoves(v, s, u);
    } else {
      u := t;
      MovesUnlessBlocked(v, s, t);
    }
  }
}
