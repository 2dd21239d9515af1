/**
 The event loop's pending-functor queue and its eventfd wakeup, as a transition system: one loop
 thread and any number of other threads, each atomic access its own step.

 The wait in `poll` may end at any time (readiness, timeout, signal). The wakeup channel is among the
 ready ones exactly when the eventfd counter is positive at that moment. `runInLoop` from another
 thread is `queueInLoop`; from the loop thread it runs the callback on the spot and queues nothing.
 */
module EventLoop {
  import opened Basics

  type Functor = nat
  type Tid = nat

  /** The largest value an eventfd counter holds; a write beyond it fails and changes nothing. */
  const COUNTER_MAX: nat := 0xffff_ffff_ffff_fffe

  /** Where the loop thread is. */
  datatype Phase =
    | Outside                        // not in loop()
    | Check                          // about to test quit_
    | Polling                        // waiting
    | Handling(wake: bool)           // running event callbacks; `wake`: handleRead is still due
    | Swapping                       // callingPendingFunctors_ is set
    | Running(batch: seq<Functor>)   // the swapped-out functors still to run

  datatype State = State(
    phase: Phase,
    pending: seq<Functor>,
    counter: nat,
    calling: bool,
    quit: bool,
    loopOwes: bool,                  // the loop thread has pushed and not yet decided whether to wake
    owes: set<Tid>,                  // other threads that have pushed or quit and still owe their wakeup
    early: bool,                     // the loop thread has queued outside loop() since the last swap
    enqueued: seq<Functor>,
    executed: seq<Functor>)

  datatype Action =
    | Push(t: Tid, f: Functor)
    | Quit(t: Tid)
    | Wake(t: Tid)
    | LoopPush(f: Functor)
    | LoopWake
    | LoopQuit
    | Start
    | EnterPoll
    | Leave
    | PollReturn
    | HandleRead
    | EndHandling
    | Swap
    | Exec
    | EndRunning

  function Bump(counter: nat): (r: nat)
    ensures r > 0
  {
    if counter < COUNTER_MAX then counter + 1 else counter
  }

  /** Callbacks run while events are handled and while functors run; between them the loop is itself. */
  predicate InCallback(s: State) {
    s.phase.Handling? || s.phase.Running?
  }

  predicate Enabled(s: State, a: Action) {
    match a
    case Push(t, _) => t !in s.owes
    case Quit(t) => t !in s.owes
    case Wake(t) => t in s.owes
    case LoopPush(_) => !s.loopOwes && (InCallback(s) || s.phase.Outside?)
    case LoopWake => s.loopOwes
    case LoopQuit => !s.loopOwes && (InCallback(s) || s.phase.Outside?)
    case Start => !s.loopOwes && s.phase.Outside?
    case EnterPoll => s.phase.Check? && !s.quit
    case Leave => s.phase.Check? && s.quit
    case PollReturn => s.phase.Polling?
    case HandleRead => !s.loopOwes && s.phase.Handling? && s.phase.wake
    case EndHandling => !s.loopOwes && s.phase.Handling? && !s.phase.wake
    case Swap => s.phase.Swapping?
    case Exec => !s.loopOwes && s.phase.Running? && s.phase.batch != []
    case EndRunning => !s.loopOwes && s.phase.Running? && s.phase.batch == []
  }

  function Do(s: State, a: Action): State
    requires Enabled(s, a)
  {
    match a
    case Push(t, f) => s.(pending := s.pending + [f], enqueued := s.enqueued + [f], owes := s.owes + {t})
    case Quit(t) => s.(quit := true, owes := s.owes + {t})
    case Wake(t) => s.(counter := Bump(s.counter), owes := s.owes - {t})
    case LoopPush(f) =>
      s.(pending := s.pending + [f], enqueued := s.enqueued + [f], loopOwes := true,
         early := s.early || s.phase.Outside?)
    case LoopWake => s.(loopOwes := false, counter := if s.calling then Bump(s.counter) else s.counter)
    case LoopQuit => s.(quit := true)
    case Start => s.(phase := Check, quit := false)
    case EnterPoll => s.(phase := Polling)
    case Leave => s.(phase := Outside)
    case PollReturn => s.(phase := Handling(s.counter > 0))
    case HandleRead => s.(phase := Handling(false), counter := 0)
    case EndHandling => s.(phase := Swapping, calling := true)
    case Swap => s.(phase := Running(s.pending), pending := [], early := false)
    case Exec => s.(phase := Running(s.phase.batch[1..]), executed := s.executed + [s.phase.batch[0]])
    case EndRunning => s.(phase := Check, calling := false)
  }

  /** The state after the actions, when each is enabled in its turn. */
  function Perform(s: State, acts: seq<Action>): Outcome<State>
    decreases |acts|
  {
    if acts == [] then Done(s)
    else if !Enabled(s, acts[0]) then Fault
    else Perform(Do(s, acts[0]), acts[1..])
  }

  function Batch(s: State): seq<Functor> {
    if s.phase.Running? then s.phase.batch else []
  }

  /** Somebody will make the next wait return at once: the counter is up, or a wakeup is owed. */
  predicate Awake(s: State) {
    s.counter > 0 || s.owes != {} || s.loopOwes
  }

  ghost predicate Inv(s: State) {
    && s.enqueued == s.executed + Batch(s) + s.pending
    && (s.calling <==> s.phase.Swapping? || s.phase.Running?)
    && (s.loopOwes ==> InCallback(s) || (s.phase.Outside? && s.early))
    && (!s.phase.Handling? && !s.phase.Swapping? && s.pending != [] ==> Awake(s) || s.early)
    && (s.phase.Polling? && s.quit ==> Awake(s))
  }

  lemma StepKeepsInv(s: State, a: Action)
    requires Inv(s) && Enabled(s, a)
    ensures Inv(Do(s, a))
  {
    var s' := Do(s, a);
    assert s'.enqueued == s'.executed + Batch(s') + s'.pending;
  }

  lemma {:induction false} RunKeepsInv(s: State, acts: seq<Action>)
    requires Inv(s) && Perform(s, acts).Done?
    ensures Inv(Perform(s, acts).value)
    decreases |acts|
  {
    if acts != [] {
      StepKeepsInv(s, acts[0]);
      RunKeepsInv(Do(s, acts[0]), acts[1..]);
    }
  }

  /** What any interleaving of the loop and the other threads can lead to. */
  ghost predicate Reachable(s: State) {
    exists s0, acts :: Starts(s0) && Perform(s0, acts) == Done(s)
  }

  /** Before `loop` is called, with nothing queued and nobody under way. */
  predicate Starts(s: State) {
    && s.phase.Outside? && s.pending == [] && s.counter == 0 && !s.calling && !s.quit
    && !s.loopOwes && s.owes == {} && !s.early && s.enqueued == [] && s.executed == []
  }

  lemma ReachableInv(s: State)
    requires Reachable(s)
    ensures Inv(s)
  {
    var s0, acts :| Starts(s0) && Perform(s0, acts) == Done(s);
    RunKeepsInv(s0, acts);
  }

  /**
   No lost wakeup: when the loop waits with functors pending, the counter is positive or some thread
   has pushed and still owes its wakeup, unless the loop thread itself queued outside any callback.
   A quit from another thread while the loop waits ends the wait in the same way.
   */
  lemma NoLostWakeup(s: State)
    requires Reachable(s) && s.phase.Polling?
    ensures s.pending != [] && !s.early ==> s.counter > 0 || s.owes != {}
    ensures s.quit ==> s.counter > 0 || s.owes != {}
  {
    ReachableInv(s);
  }

  /** The loop thread has queued outside a callback in the run, and the queue has not been swapped out since. */
  function QueuedEarly(s: State, acts: seq<Action>, was: bool): bool
    requires Perform(s, acts).Done?
    decreases |acts|
  {
    if acts == [] then was
    else QueuedEarly(Do(s, acts[0]), acts[1..],
                     !acts[0].Swap? && (was || (acts[0].LoopPush? && s.phase.Outside?)))
  }

  lemma {:induction false} EarlyRun(s: State, acts: seq<Action>)
    requires Perform(s, acts).Done?
    ensures Perform(s, acts).value.early <==> QueuedEarly(s, acts, s.early)
    decreases |acts|
  {
    if acts != [] {
      EarlyRun(Do(s, acts[0]), acts[1..]);
    }
  }

  /** No lost wakeup, over every run by its actions. */
  lemma NoLostWakeupOverRuns(s0: State, acts: seq<Action>, s: State)
    requires Starts(s0) && Perform(s0, acts) == Done(s) && s.phase.Polling?
    requires s.pending != [] && !QueuedEarly(s0, acts, false)
    ensures s.counter > 0 || s.owes != {}
  {
    RunKeepsInv(s0, acts);
    EarlyRun(s0, acts);
  }

  /** Exactly once, in order: what has run is a prefix of what was queued, and nothing is dropped. */
  lemma FifoOnce(s: State)
    requires Reachable(s)
    ensures s.executed <= s.enqueued
    ensures s.enqueued == s.executed + Batch(s) + s.pending
  {
    ReachableInv(s);
  }

  /** The functors that some actions queue, in order. */
  function Queued(acts: seq<Action>): seq<Functor> {
    if acts == [] then []
    else (match acts[0] case Push(_, f) => [f] case LoopPush(f) => [f] case _ => []) + Queued(acts[1..])
  }

  lemma {:induction false} QueuedRun(s: State, acts: seq<Action>)
    requires Perform(s, acts).Done?
    ensures Perform(s, acts).value.enqueued == s.enqueued + Queued(acts)
    decreases |acts|
  {
    if acts != [] {
      QueuedRun(Do(s, acts[0]), acts[1..]);
    }
  }

  /**
   Over every run, what the actions queued, in order, is what has run, then what is swapped out, then
   what is pending: no functor is dropped, repeated or overtaken.
   */
  lemma FifoOfActions(s0: State, acts: seq<Action>, s: State)
    requires Starts(s0) && Perform(s0, acts) == Done(s)
    ensures Queued(acts) == s.executed + Batch(s) + s.pending
  {
    RunKeepsInv(s0, acts);
    QueuedRun(s0, acts);
  }

  /** The action writes to the descriptor: another thread's wakeup, or the loop thread's from a functor. */
  predicate Writes(s: State, a: Action) {
    a.Wake? || (a.LoopWake? && (s.phase.Swapping? || s.phase.Running?))
  }

  predicate WrittenDuring(s: State, acts: seq<Action>)
    requires Perform(s, acts).Done?
    decreases |acts|
  {
    acts != [] && (Writes(s, acts[0]) || WrittenDuring(Do(s, acts[0]), acts[1..]))
  }

  lemma {:induction false} CounterRun(s: State, acts: seq<Action>)
    requires Inv(s) && Perform(s, acts).Done? && forall i :: 0 <= i < |acts| ==> !acts[i].HandleRead?
    ensures Perform(s, acts).value.counter > 0 <==> s.counter > 0 || WrittenDuring(s, acts)
    decreases |acts|
  {
    if acts != [] {
      assert !acts[0].HandleRead?;
      StepKeepsInv(s, acts[0]);
      CounterRun(Do(s, acts[0]), acts[1..]);
    }
  }

  /**
   Reading the descriptor clears it, so that in every interleaving a later wait finds it readable
   exactly when it has been written since.
   */
  lemma ReadableExactly(s: State, acts: seq<Action>, s': State)
    requires Reachable(s) && Enabled(s, HandleRead) && Perform(Do(s, HandleRead), acts) == Done(s')
    requires s'.phase.Polling? && forall i :: 0 <= i < |acts| ==> !acts[i].HandleRead?
    ensures Do(s', PollReturn).phase == Handling(WrittenDuring(Do(s, HandleRead), acts))
  {
    ReachableInv(s);
    StepKeepsInv(s, HandleRead);
    ReadableAfter(Do(s, HandleRead), acts, s');
  }

  lemma ReadableAfter(s1: State, acts: seq<Action>, s': State)
    requires Inv(s1) && s1.counter == 0 && Perform(s1, acts) == Done(s') && s'.phase.Polling?
    requires forall i :: 0 <= i < |acts| ==> !acts[i].HandleRead?
    ensures Do(s', PollReturn).phase == Handling(WrittenDuring(s1, acts))
  {
    CounterRun(s1, acts);
  }

  /** A wait that found the descriptor readable is followed by the read before any queued functor runs. */
  lemma {:induction false} ReadBeforeServing(s: State, acts: seq<Action>)
    requires s.phase == Handling(true) && Perform(s, acts).Done?
    requires forall i :: 0 <= i < |acts| ==> !acts[i].HandleRead?
    ensures Perform(s, acts).value.phase == Handling(true)
    decreases |acts|
  {
    if acts != [] {
      assert !acts[0].HandleRead?;
      ReadBeforeServing(Do(s, acts[0]), acts[1..]);
    }
  }

  /** What can happen up to the loop's first wait. */
  predicate BeforeWait(a: Action) {
    || a.Push? || a.Quit? || a.Wake? || a.LoopPush? || a.LoopWake? || a.LoopQuit?
    || a.Start? || a.EnterPoll? || a.Leave?
  }

  /** A call by another thread, which brings a wakeup with it. */
  predicate CallsIn(a: Action) {
    a.Push? || a.Quit?
  }

  predicate Queues(a: Action) {
    a.Push? || a.LoopPush?
  }

  predicate Quiet(s: State) {
    s.counter == 0 && s.owes == {}
  }

  predicate NotWaitedYet(s: State) {
    s.phase.Outside? || s.phase.Check? || s.phase.Polling?
  }

  lemma QuietStep(s: State, a: Action)
    requires Inv(s) && NotWaitedYet(s) && Enabled(s, a) && BeforeWait(a)
    ensures NotWaitedYet(Do(s, a)) && (Quiet(Do(s, a)) <==> Quiet(s) && !CallsIn(a))
    ensures |Do(s, a).pending| == |s.pending| + if Queues(a) then 1 else 0
  {
  }

  lemma {:induction false} QuietRun(s: State, acts: seq<Action>)
    requires Inv(s) && NotWaitedYet(s) && Perform(s, acts).Done?
    requires forall i :: 0 <= i < |acts| ==> BeforeWait(acts[i])
    ensures var s' := Perform(s, acts).value;
            && NotWaitedYet(s')
            && (Quiet(s') <==> Quiet(s) && forall i :: 0 <= i < |acts| ==> !CallsIn(acts[i]))
            && |s'.pending| >= |s.pending|
            && (|s'.pending| == |s.pending| <==> forall i :: 0 <= i < |acts| ==> !Queues(acts[i]))
    decreases |acts|
  {
    if acts != [] {
      var rest := acts[1..];
      StepKeepsInv(s, acts[0]);
      QuietStep(s, acts[0]);
      QuietRun(Do(s, acts[0]), rest);
      assert acts == [acts[0]] + rest;
    }
  }

  /**
   From before the loop to its first wait, in every interleaving: the loop waits without a wakeup under
   way exactly when none was to begin with and no other thread has called in, whatever the loop thread
   itself has queued meanwhile; and it waits so over a functor exactly when, besides, one was pending or
   has been queued. `queueInLoop` writes no wakeup for the loop thread outside a callback.
   */
  lemma EarlyQueueExactly(s: State, acts: seq<Action>, s': State)
    requires Reachable(s) && s.phase.Outside? && Perform(s, acts) == Done(s') && s'.phase.Polling?
    requires forall i :: 0 <= i < |acts| ==> BeforeWait(acts[i])
    ensures !Awake(s') <==> s.counter == 0 && s.owes == {} && forall i :: 0 <= i < |acts| ==> !CallsIn(acts[i])
    ensures s'.pending != [] && !Awake(s') <==>
      && s.counter == 0 && s.owes == {} && (forall i :: 0 <= i < |acts| ==> !CallsIn(acts[i]))
      && (s.pending != [] || exists i :: 0 <= i < |acts| && Queues(acts[i]))
  {
    ReachableInv(s);
    QuietRun(s, acts);
    RunKeepsInv(s, acts);
  }

  /** The loop thread queues a functor before its loop and goes to wait: an instance left without a wakeup. */
  lemma EarlyQueueStuck(s: State, f: Functor) returns (s': State)
    requires Starts(s)
    ensures Perform(s, [LoopPush(f), LoopWake, Start, EnterPoll]) == Done(s')
    ensures s'.phase.Polling? && s'.pending == [f] && !Awake(s')
  {
    var s1 := Do(s, LoopPush(f));
    var s2 := Do(s1, LoopWake);
    var s3 := Do(s2, Start);
    s' := Do(s3, EnterPoll);
    var acts := [LoopPush(f), LoopWake, Start, EnterPoll];
    assert acts[1..] == [LoopWake, Start, EnterPoll];
    assert acts[1..][1..] == [Start, EnterPoll] && acts[1..][1..][1..] == [EnterPoll];
    assert Perform(s3, [EnterPoll]) == Done(s');
    assert Perform(s2, [Start, EnterPoll]) == Perform(s3, [EnterPoll]);
    assert Perform(s1, [LoopWake, Start, EnterPoll]) == Perform(s2, [Start, EnterPoll]);
  }

  predicate IsQuit(a: Action) {
    a.Quit? || a.LoopQuit?
  }

  /** The actions from one `Start` up to the end of that call of `loop`. */
  predicate Inside(acts: seq<Action>) {
    forall i :: 0 <= i < |acts| ==> !acts[i].Start? && !acts[i].Leave?
  }

  predicate Quits(acts: seq<Action>) {
    exists i :: 0 <= i < |acts| && IsQuit(acts[i])
  }

  /** Inside the loop the flag is set exactly when it was, or a quit has been made since. */
  lemma {:induction false} QuitSticks(s: State, acts: seq<Action>)
    requires !s.phase.Outside? && Perform(s, acts).Done? && Inside(acts)
    ensures !Perform(s, acts).value.phase.Outside?
    ensures Perform(s, acts).value.quit <==> s.quit || Quits(acts)
    decreases |acts|
  {
    if acts != [] {
      assert !acts[0].Start? && !acts[0].Leave?;
      assert acts == [acts[0]] + acts[1..];
      QuitSticks(Do(s, acts[0]), acts[1..]);
    }
  }

  /**
   In every interleaving, whenever a call of `loop` tests its flag, it ends exactly when a quit was made
   since that call began, and goes to wait again exactly when none was. A quit made before it is forgotten.
   */
  lemma QuitHonouredExactly(s: State, acts: seq<Action>, s': State)
    requires s.phase.Outside? && !s.loopOwes && Perform(Do(s, Start), acts) == Done(s')
    requires Inside(acts) && s'.phase.Check?
    ensures Enabled(s', Leave) <==> Quits(acts)
    ensures Enabled(s', EnterPoll) <==> !Quits(acts)
  {
    QuitSticks(Do(s, Start), acts);
  }

  /** Without a quit since it began, the loop never ends, however long it goes on. */
  lemma {:induction false} OnlyQuitLeaves(s: State, acts: seq<Action>)
    requires !s.quit && !s.phase.Outside? && Perform(s, acts).Done? && !Quits(acts)
    ensures !Perform(s, acts).value.phase.Outside?
    decreases |acts|
  {
    if acts != [] {
      assert !IsQuit(acts[0]);
      OnlyQuitLeaves(Do(s, acts[0]), acts[1..]);
    }
  }

  /** A quit made before the loop begins is forgotten: without a later one the loop never ends. */
  lemma QuitBeforeStartForgotten(s: State, acts: seq<Action>)
    requires s.phase.Outside? && Perform(s, acts).Done? && acts != [] && acts[0] == Start && !Quits(acts)
    ensures !Perform(s, acts).value.phase.Outside?
  {
    assert forall i :: 0 <= i < |acts[1..]| ==> acts[1..][i] == acts[i + 1];
    OnlyQuitLeaves(Do(s, Start), acts[1..]);
  }

  /** Where the functors of `q`, everything queued at some wait, are by now. */
  ghost predicate Served(s: State, q: seq<Functor>) {
    && q <= s.enqueued
    && (s.phase.Running? ==> q <= s.executed + s.phase.batch)
    && (s.phase.Check? || s.phase.Outside? ==> q <= s.executed)
  }

  lemma ServedStep(s: State, a: Action, q: seq<Functor>)
    requires Inv(s) && Served(s, q) && Enabled(s, a)
    ensures Served(Do(s, a), q)
  {
    if a.Exec? {
      assert s.executed + s.phase.batch == (s.executed + [s.phase.batch[0]]) + s.phase.batch[1..];
    } else if a.EndRunning? {
      assert s.executed + s.phase.batch == s.executed;
    } else if a.Swap? {
      assert s.executed + [] + s.pending == s.executed + s.pending;
    }
  }

  lemma {:induction false} ServedRun(s: State, acts: seq<Action>, q: seq<Functor>)
    requires Inv(s) && Served(s, q) && Perform(s, acts).Done?
    ensures Served(Perform(s, acts).value, q)
    decreases |acts|
  {
    if acts != [] {
      StepKeepsInv(s, acts[0]);
      ServedStep(s, acts[0], q);
      ServedRun(Do(s, acts[0]), acts[1..], q);
    }
  }

  /**
   In every interleaving, once the loop has come back from a wait to test its quit flag, everything
   that was queued at that wait has run.
   */
  lemma WaitServesAll(s: State, acts: seq<Action>, s': State)
    requires Reachable(s) && s.phase.Polling? && Perform(s, acts) == Done(s') && s'.phase.Check?
    ensures s.enqueued <= s'.executed
  {
    ReachableInv(s);
    ServedRun(s, acts, s.enqueued);
  }

  /** The loop thread's own steps from a wait with the counter up to the end of the batch. */
  ghost predicate DrainsTo(s: State, s': State) {
    exists acts :: Perform(s, acts) == Done(s') && forall i :: 0 <= i < |acts| ==> LoopStep(acts[i])
  }

  predicate LoopStep(a: Action) {
    a.PollReturn? || a.HandleRead? || a.EndHandling? || a.Swap? || a.Exec? || a.EndRunning?
  }

  lemma DrainStep(s: State, a: Action, s': State)
    requires Enabled(s, a) && LoopStep(a) && DrainsTo(Do(s, a), s')
    ensures DrainsTo(s, s')
  {
    var acts :| Perform(Do(s, a), acts) == Done(s') && forall i :: 0 <= i < |acts| ==> LoopStep(acts[i]);
    var all := [a] + acts;
    assert all[1..] == acts;
    assert Perform(s, all) == Done(s');
  }

  lemma {:induction false} RunBatch(s: State) returns (s': State)
    requires Inv(s) && s.phase.Running? && !s.loopOwes && s.pending == []
    ensures DrainsTo(s, s') && s'.executed == s'.enqueued == s.enqueued && s'.phase.Check?
    decreases |Batch(s)|
  {
    if s.phase.batch == [] {
      s' := Do(s, EndRunning);
      assert Perform(s', []) == Done(s');
      assert DrainsTo(s', s');
      DrainStep(s, EndRunning, s');
    } else {
      StepKeepsInv(s, Exec);
      s' := RunBatch(Do(s, Exec));
      DrainStep(s, Exec, s');
    }
  }

  /** From any wait, the loop thread's own steps run everything queued so far. */
  lemma WaitDrains(s: State) returns (s': State)
    requires Reachable(s) && s.phase.Polling?
    ensures DrainsTo(s, s') && s'.executed == s'.enqueued == s.enqueued && s'.phase.Check?
  {
    ReachableInv(s);
    var s1 := Do(s, PollReturn);
    StepKeepsInv(s, PollReturn);
    var s2 := if s1.phase.wake then Do(s1, HandleRead) else s1;
    if s1.phase.wake { StepKeepsInv(s1, HandleRead); }
    StepKeepsInv(s2, EndHandling);
    var s3 := Do(s2, EndHandling);
    StepKeepsInv(s3, Swap);
    s' := RunBatch(Do(s3, Swap));
    DrainStep(s3, Swap, s');
    DrainStep(s2, EndHandling, s');
    if s1.phase.wake { DrainStep(s1, HandleRead, s'); }
    DrainStep(s, PollReturn, s');
  }
}
