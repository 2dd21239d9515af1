/** A request that has to fetch is followed from the call to the block it delivers. */
module AllocatorRequests {
  import opened SizeClass
  import opened PageHeap
  import opened Allocator
  import opened AllocatorRuns
  import opened AllocatorSafety

  /** Between the call of `Allocate` and the delivery of the block. */
  predicate Fetches(pc: Pc) {
    || pc.FetchLock? || pc.FetchScan? || pc.SpanLock? || pc.SpanNew? || pc.SpanMark?
    || pc.Carve? || pc.PublishLock? || pc.Publish? || pc.TakeObjs? || pc.Deliver?
  }

  /** Thread `u` may move, every other thread stays where it is. */
  ghost predicate OnlyMoves(s: State, s': State, u: Tid) {
    u in s.pc && s'.pc.Keys == s.pc.Keys && forall t :: t in s.pc && t != u ==> s'.pc[t] == s.pc[t]
  }

  lemma IdleMoves(v: Variant, s: State, t: Tid, ev: Event)
    requires t in s.pc && (s.pc[t].Idle? || BadClass(s.pc[t]))
    ensures OnlyMoves(s, Do(v, s, t, ev), t)
    ensures Fetches(Do(v, s, t, ev).pc[t]) ==> s.pc[t].Idle? && ev.Alloc? && ev.size <= Do(v, s, t, ev).pc[t].size
  {
    if s.pc[t].Idle? && ev.Alloc? && ValidSize(ev.size) {
      RoundUpIsClassSize(ev.size);
    }
  }

  lemma FetchMoves(v: Variant, s: State, t: Tid, ev: Event)
    requires t in s.pc && !BadClass(s.pc[t]) && ev.Go?
    requires s.pc[t].FetchLock? || s.pc[t].FetchScan? || s.pc[t].SpanLock? || s.pc[t].SpanNew? || s.pc[t].SpanMark?
    ensures OnlyMoves(s, Do(v, s, t, ev), t)
    ensures Fetches(Do(v, s, t, ev).pc[t]) ==> s.pc[t].size == Do(v, s, t, ev).pc[t].size
  {
    StepIs(v, s, t, ev);
  }

  lemma CarveMoves(v: Variant, s: State, t: Tid, ev: Event)
    requires t in s.pc && !BadClass(s.pc[t]) && ev.Go?
    requires s.pc[t].Carve? || s.pc[t].PublishLock? || s.pc[t].Publish? || s.pc[t].TakeObjs? || s.pc[t].Deliver?
    ensures OnlyMoves(s, Do(v, s, t, ev), t)
    ensures Fetches(Do(v, s, t, ev).pc[t]) ==> s.pc[t].size == Do(v, s, t, ev).pc[t].size
  {
    StepIs(v, s, t, ev);
  }

  lemma FreeMoves(v: Variant, s: State, t: Tid, ev: Event)
    requires t in s.pc && !BadClass(s.pc[t]) && ev.Go?
    requires s.pc[t].LookupLock? || s.pc[t].Lookup? || s.pc[t].Dealloc? || s.pc[t].ReturnLock?
    ensures OnlyMoves(s, Do(v, s, t, ev), t) && !Fetches(Do(v, s, t, ev).pc[t])
  {
    StepIs(v, s, t, ev);
  }

  lemma ReturnMoves(v: Variant, s: State, t: Tid, ev: Event)
    requires t in s.pc && !BadClass(s.pc[t]) && ev.Go?
    requires s.pc[t].ReturnNext? || s.pc[t].ReturnGet? || s.pc[t].ReturnPut?
    ensures OnlyMoves(s, Do(v, s, t, ev), t) && !Fetches(Do(v, s, t, ev).pc[t])
  {
    StepIs(v, s, t, ev);
  }

  lemma GiveMoves(v: Variant, s: State, t: Tid, ev: Event)
    requires t in s.pc && ev.Go? && (s.pc[t].GiveLock? || s.pc[t].Give?)
    ensures OnlyMoves(s, Do(v, s, t, ev), t) && !Fetches(Do(v, s, t, ev).pc[t])
  {
    StepIs(v, s, t, ev);
  }

  lemma Moves(v: Variant, s: State, s': State, u: Tid, ev: Event)
    requires Enabled(v, s, u, ev) && s' == Do(v, s, u, ev)
    ensures OnlyMoves(s, s', u)
    ensures Fetches(s'.pc[u]) ==>
      if s.pc[u].Idle? then ev.Alloc? && ev.size <= s'.pc[u].size
      else Fetches(s.pc[u]) && s.pc[u].size == s'.pc[u].size
  {
    var pc := s.pc[u];
    if pc.Idle? || BadClass(pc) {
      IdleMoves(v, s, u, ev);
    } else if pc.FetchLock? || pc.FetchScan? || pc.SpanLock? || pc.SpanNew? || pc.SpanMark? {
      FetchMoves(v, s, u, ev);
    } else if pc.Carve? || pc.PublishLock? || pc.Publish? || pc.TakeObjs? || pc.Deliver? {
      CarveMoves(v, s, u, ev);
    } else if pc.LookupLock? || pc.Lookup? || pc.Dealloc? || pc.ReturnLock? {
      FreeMoves(v, s, u, ev);
    } else if pc.GiveLock? || pc.Give? {
      GiveMoves(v, s, u, ev);
    } else {
      ReturnMoves(v, s, u, ev);
    }
  }

  /** Who moves, and on what. */
  datatype Move = Move(t: Tid, ev: Event)

  ghost predicate Makes(v: Variant, s: State, m: Move, s': State) {
    Enabled(v, s, m.t, m.ev) && s' == Do(v, s, m.t, m.ev)
  }

  /** A run with the moves that made it. */
  ghost predicate RunBy(v: Variant, run: seq<State>, moves: seq<Move>) {
    && |run| == |moves| + 1 && Init(run[0])
    && forall i :: 0 <= i < |moves| ==> Makes(v, run[i], moves[i], run[i + 1])
  }

  /** Every run is made by moves. */
  lemma {:induction false} RunHasMoves(v: Variant, run: seq<State>) returns (moves: seq<Move>)
    requires Run(v, run)
    ensures RunBy(v, run, moves)
    decreases |run|
  {
    moves := [];
    if |run| > 1 {
      var n := |run| - 1;
      moves := RunHasMoves(v, run[..n]);
      var m := LastMove(v, run[n - 1], run[n]);
      forall i | 0 <= i < n ensures Makes(v, run[i], (moves + [m])[i], run[i + 1]) {
        assert i < n - 1 ==> Makes(v, run[..n][i], moves[i], run[..n][i + 1]);
      }
      moves := moves + [m];
    }
  }

  lemma LastMove(v: Variant, s: State, s': State) returns (m: Move)
    requires Next(v, s, s')
    ensures Makes(v, s, m, s')
  {
    var t, ev :| Enabled(v, s, t, ev) && s' == Do(v, s, t, ev);
    m := Move(t, ev);
  }

  /** Thread `t` was asked for `asked` bytes in state `i`, and has been fetching ever since. */
  ghost predicate AskedAt(run: seq<State>, moves: seq<Move>, t: Tid, i: nat, asked: nat) {
    && i < |moves| < |run| && moves[i] == Move(t, Alloc(asked)) && t in run[i].pc && run[i].pc[t].Idle?
    && forall m :: i < m < |run| ==> t in run[m].pc && Fetches(run[m].pc[t])
  }

  /** What one move does to a thread that is fetching afterwards. */
  ghost predicate FetchedOn(s: State, m: Move, s': State, t: Tid) {
    t in s.pc && t in s'.pc && Fetches(s'.pc[t])
    && if m.t == t && s.pc[t].Idle? then m.ev.Alloc? && m.ev.size <= s'.pc[t].size
       else Fetches(s.pc[t]) && s.pc[t].size == s'.pc[t].size
  }

  lemma MoveFetches(v: Variant, s: State, m: Move, s': State, t: Tid)
    requires Makes(v, s, m, s') && t in s'.pc && Fetches(s'.pc[t])
    ensures FetchedOn(s, m, s', t)
  {
    Moves(v, s, s', m.t, m.ev);
  }

  lemma RunMoves(v: Variant, run: seq<State>, moves: seq<Move>, n: nat, t: Tid)
    requires RunBy(v, run, moves) && n == |moves| && t in run[n].pc && Fetches(run[n].pc[t])
    ensures n > 0 && FetchedOn(run[n - 1], moves[n - 1], run[n], t) && RunBy(v, run[..n], moves[..n - 1])
  {
    assert n > 0;
    assert Makes(v, run[n - 1], moves[n - 1], run[n - 1 + 1]);
    MoveFetches(v, run[n - 1], moves[n - 1], run[n], t);
  }

  lemma AskedNow(run: seq<State>, moves: seq<Move>, t: Tid, n: nat)
    requires 0 < n == |moves| && |run| == n + 1 && moves[n - 1].t == t
    requires FetchedOn(run[n - 1], moves[n - 1], run[n], t) && run[n - 1].pc[t].Idle?
    ensures moves[n - 1].ev.Alloc? && AskedAt(run, moves, t, n - 1, moves[n - 1].ev.size)
    ensures moves[n - 1].ev.size <= run[n].pc[t].size
  {
  }

  lemma AskedLonger(run: seq<State>, moves: seq<Move>, t: Tid, i: nat, asked: nat, n: nat)
    requires 0 < n == |moves| && |run| == n + 1 && AskedAt(run[..n], moves[..n - 1], t, i, asked)
    requires FetchedOn(run[n - 1], moves[n - 1], run[n], t)
    requires !(moves[n - 1].t == t && run[n - 1].pc[t].Idle?)
    ensures AskedAt(run, moves, t, i, asked) && run[n].pc[t].size == run[n - 1].pc[t].size
  {
    assert forall m :: 0 <= m < n ==> run[..n][m] == run[m];
    assert moves[..n - 1][i] == moves[i];
  }

  /** Whoever is fetching has been asked, in this run, for no more than it is fetching. */
  lemma {:induction false} FetchWasAsked(v: Variant, run: seq<State>, moves: seq<Move>, t: Tid)
    returns (i: nat, asked: nat)
    requires RunBy(v, run, moves) && t in run[|moves|].pc && Fetches(run[|moves|].pc[t])
    ensures AskedAt(run, moves, t, i, asked) && asked <= run[|moves|].pc[t].size
    decreases |moves|
  {
    var n := |moves|;
    RunMoves(v, run, moves, n, t);
    if moves[n - 1].t == t && run[n - 1].pc[t].Idle? {
      i, asked := n - 1, moves[n - 1].ev.size;
      AskedNow(run, moves, t, n);
    } else {
      i, asked := FetchWasAsked(v, run[..n], moves[..n - 1], t);
      AskedLonger(run, moves, t, i, asked, n);
    }
  }

  /** The block a fetch delivers was not live and is as long as was asked for, in every run. */
  lemma DeliveredAsAsked(v: Variant, run: seq<State>, moves: seq<Move>, t: Tid, ev: Event) returns (i: nat, asked: nat)
    requires RunBy(v, run, moves) && Enabled(v, run[|moves|], t, ev) && run[|moves|].pc[t].Deliver?
    ensures AskedAt(run, moves, t, i, asked)
    ensures var s, s' := run[|moves|], Do(v, run[|moves|], t, ev);
            && s.pc[t].got != [] && s.pc[t].got[0] !in s.live
            && s.pc[t].got[0] in s'.live && s'.live[s.pc[t].got[0]] >= asked
  {
    i, asked := FetchWasAsked(v, run, moves, t);
    MovesReach(v, run, moves);
    DeliversFirst(v, run[|moves|], t, ev);
  }

  lemma MovesReach(v: Variant, run: seq<State>, moves: seq<Move>)
    requires RunBy(v, run, moves)
    ensures Reachable(v, run[|moves|])
  {
    forall i | 0 < i < |run| ensures Next(v, run[i - 1], run[i]) {
      assert Makes(v, run[i - 1], moves[i - 1], run[i - 1 + 1]);
    }
    assert Run(v, run);
  }

  lemma DeliversFirst(v: Variant, s: State, t: Tid, ev: Event)
    requires Reachable(v, s) && Enabled(v, s, t, ev) && s.pc[t].Deliver?
    ensures s.pc[t].got != [] && s.pc[t].got[0] !in s.live
    ensures var s' := Do(v, s, t, ev); s.pc[t].got[0] in s'.live && s'.live[s.pc[t].got[0]] == s.pc[t].size
  {
    HandIsFull(v, s, t);
    NeverHandedOutTwice(v, s, t, ev);
    DeliverIs(v, s, t, ev);
  }

  lemma DeliverIs(v: Variant, s: State, t: Tid, ev: Event)
    requires t in s.pc && s.pc[t].Deliver? && s.pc[t].got != [] && s.pc[t].got[0] in Do(v, s, t, ev).live
    requires s.pc[t].got[0] !in s.live
    ensures Do(v, s, t, ev).live[s.pc[t].got[0]] == s.pc[t].size
  {
  }
}
