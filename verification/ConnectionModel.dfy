/**
 The output side of a connection: what is sent, what waits in the output buffer, when the channel
 asks for writability, and when the write side is shut down. System calls are oracles: each write
 comes with the result the kernel gives it.
 */
module ConnectionModel {
  import opened Basics
  import B = Buffer

  type Byte = B.Byte

  /**
   `Negated` reads the guard around `enableWriting` in `sendInLoop` as its comment does: register when
   not registered yet. `AsWritten` follows the text, which registers only what is registered already.
   */
  datatype Guard = AsWritten | Negated

  datatype ConnState = Connecting | Connected | DisConnecting | DisConnected

  datatype WriteResult = Wrote(n: nat) | WouldBlock | Broken | Failed

  /**
   `polled`: the poller has the channel. `kernel` is what the kernel has accepted, `messages` the messages
   not dropped, `queuedShutdowns` the `shutdownInLoop` calls waiting in the loop, `closedAt` the kernel's
   bytes at the first half-close.
   */
  datatype Conn = Conn(
    state: ConnState,
    reading: bool,
    writing: bool,
    polled: bool,
    out: seq<Byte>,
    kernel: seq<Byte>,
    messages: seq<seq<Byte>>,
    queuedShutdowns: nat,
    closedAt: Option<seq<Byte>>)

  function Init(): Conn {
    Conn(Connecting, false, false, false, [], [], [], 0, None)
  }

  function Concat(m: seq<seq<Byte>>): seq<Byte> {
    if m == [] then [] else Concat(m[..|m| - 1]) + m[|m| - 1]
  }

  lemma ConcatOne(m: seq<seq<Byte>>, x: seq<Byte>)
    ensures Concat(m + [x]) == Concat(m) + x
  {
    assert (m + [x])[..|m|] == m;
  }

  predicate Possible(res: WriteResult, len: nat) {
    res.Wrote? ==> res.n <= len
  }

  /** The direct write happens only with nothing waiting. */
  predicate Direct(s: Conn) {
    !s.writing && s.out == []
  }

  function Taken(s: Conn, res: WriteResult): nat {
    if Direct(s) && res.Wrote? then res.n else 0
  }

  /** The peer is gone: the message is dropped whole. */
  predicate Dropped(s: Conn, res: WriteResult) {
    s.state.DisConnected? || (Direct(s) && res.Broken?)
  }

  function SendInLoop(g: Guard, s: Conn, data: seq<Byte>, res: WriteResult): Conn
    requires Possible(res, |data|)
  {
    if Dropped(s, res) then s
    else
      var n := Taken(s, res);
      var s1 := s.(kernel := s.kernel + data[..n], messages := s.messages + [data]);
      if n == |data| then s1
      else
        var registers := if g.AsWritten? then s.writing else !s.writing;
        s1.(out := s.out + data[n..], writing := s.writing || registers, polled := s.polled || registers)
  }

  function Send(g: Guard, s: Conn, data: seq<Byte>, res: WriteResult): Conn
    requires Possible(res, |data|)
  {
    if s.state.Connected? then SendInLoop(g, s, data, res) else s
  }

  function ShutdownInLoop(s: Conn): Conn {
    if s.writing || s.closedAt.Some? then s else s.(closedAt := Some(s.kernel))
  }

  function Shutdown(s: Conn): Conn {
    if s.state.Connected? then s.(state := DisConnecting, queuedShutdowns := s.queuedShutdowns + 1) else s
  }

  function HandleWrite(s: Conn, res: WriteResult): Conn
    requires Possible(res, |s.out|)
  {
    if !s.writing || !res.Wrote? || res.n == 0 then s
    else
      var s1 := s.(kernel := s.kernel + s.out[..res.n], out := s.out[res.n..]);
      if s1.out != [] then s1
      else
        var s2 := s1.(writing := false);
        if s.state.DisConnecting? then ShutdownInLoop(s2) else s2
  }

  function HandleClose(s: Conn): Conn {
    s.(state := DisConnected, reading := false, writing := false, polled := true)
  }

  function ConnectEstablished(s: Conn): Conn {
    s.(state := Connected, reading := true, polled := true)
  }

  /** The channel leaves the poller in every case; its own interest flags stay as they are. */
  function ConnectDestroyed(s: Conn): Conn {
    (if s.state.Connected? then HandleClose(s) else s).(polled := false)
  }

  /** `Late` is a send from another thread, run by the loop after the sender saw `kConnected`. */
  datatype Event =
    | Establish
    | Here(data: seq<Byte>, res: WriteResult)
    | Late(data: seq<Byte>, res: WriteResult)
    | Writable(res: WriteResult)
    | AskShutdown
    | RunShutdown
    | Close
    | Destroy

  predicate Enabled(s: Conn, e: Event) {
    match e
    case Establish => s.state.Connecting?
    case Here(data, res) => Possible(res, |data|)
    case Late(data, res) => Possible(res, |data|) && !s.state.Connecting?
    case Writable(res) => Possible(res, |s.out|) && s.polled
    case RunShutdown => s.queuedShutdowns > 0
    case _ => true
  }

  function Do(g: Guard, s: Conn, e: Event): Conn
    requires Enabled(s, e)
  {
    match e
    case Establish => ConnectEstablished(s)
    case Here(data, res) => Send(g, s, data, res)
    case Late(data, res) => SendInLoop(g, s, data, res)
    case Writable(res) => HandleWrite(s, res)
    case AskShutdown => Shutdown(s)
    case RunShutdown => ShutdownInLoop(s.(queuedShutdowns := s.queuedShutdowns - 1))
    case Close => HandleClose(s)
    case Destroy => ConnectDestroyed(s)
  }

  function Perform(g: Guard, s: Conn, es: seq<Event>): Outcome<Conn>
    decreases |es|
  {
    if es == [] then Done(s)
    else if !Enabled(s, es[0]) then Fault
    else Perform(g, Do(g, s, es[0]), es[1..])
  }

  /** Nothing is lost, repeated or reordered. */
  ghost predicate Conserved(s: Conn) {
    s.kernel + s.out == Concat(s.messages)
  }

  /** A message cut between kernel and buffer, with the part for the kernel empty unless the buffer is. */
  lemma CutJoins(kernel: seq<Byte>, out: seq<Byte>, data: seq<Byte>, n: nat)
    requires n <= |data| && (n > 0 ==> out == [])
    ensures (kernel + data[..n]) + (out + data[n..]) == (kernel + out) + data
  {
    assert data == data[..n] + data[n..];
  }

  lemma SendConserves(g: Guard, s: Conn, data: seq<Byte>, res: WriteResult)
    requires Conserved(s) && Possible(res, |data|)
    ensures Conserved(SendInLoop(g, s, data, res))
  {
    if !Dropped(s, res) {
      var n := Taken(s, res);
      ConcatOne(s.messages, data);
      CutJoins(s.kernel, s.out, data, n);
      if n == |data| {
        assert s.out + data[n..] == s.out;
      }
    }
  }

  lemma WriteConserves(s: Conn, res: WriteResult)
    requires Conserved(s) && Possible(res, |s.out|)
    ensures Conserved(HandleWrite(s, res))
  {
    if s.writing && res.Wrote? {
      assert s.out == s.out[..res.n] + s.out[res.n..];
      assert (s.kernel + s.out[..res.n]) + s.out[res.n..] == s.kernel + s.out;
    }
  }

  /**
   Whatever the order of sends, write events, partial writes and errors, the bytes the kernel has
   accepted followed by the output buffer are the messages that were not dropped whole, in order.
   */
  lemma {:induction false} BytesConserved(g: Guard, s: Conn, es: seq<Event>)
    requires Conserved(s) && Perform(g, s, es).Done?
    ensures Conserved(Perform(g, s, es).value)
    decreases |es|
  {
    if es != [] {
      match es[0] {
        case Here(data, res) => SendConserves(g, s, data, res);
        case Late(data, res) => SendConserves(g, s, data, res);
        case Writable(res) => WriteConserves(s, res);
        case _ =>
      }
      BytesConserved(g, Do(g, s, es[0]), es[1..]);
    }
  }

  /** Until disconnection, bytes wait exactly when the channel is registered for writing. */
  predicate Synced(s: Conn) {
    !s.state.DisConnected? ==> (s.out != [] <==> s.writing)
  }

  /**
   The protocol's invariant: registration follows the buffer, a connected channel is with the poller and
   reads until it is disconnected, at most one half-close is ever queued, and a shutdown that was asked
   for is still due, done, or waiting for the buffer to drain.
   */
  predicate Inv(s: Conn) {
    && Synced(s)
    && (s.state.DisConnected? ==> !s.writing)
    && (s.state.Connecting? || s.state.Connected? ==> s.queuedShutdowns == 0 && s.closedAt.None?)
    && (s.state.Connecting? ==> s.out == [])
    && (s.state.Connected? ==> s.polled)
    && (s.reading <==> s.state.Connected? || s.state.DisConnecting?)
    && s.queuedShutdowns <= 1
    && (s.state.DisConnecting? ==> s.queuedShutdowns > 0 || s.closedAt.Some? || s.writing)
  }

  lemma StepKeepsInv(s: Conn, e: Event)
    requires Inv(s) && Enabled(s, e)
    ensures Inv(Do(Negated, s, e))
  {
  }

  lemma {:induction false} RunKeepsInv(s: Conn, es: seq<Event>)
    requires Inv(s) && Perform(Negated, s, es).Done?
    ensures Inv(Perform(Negated, s, es).value)
    decreases |es|
  {
    if es != [] {
      StepKeepsInv(s, es[0]);
      RunKeepsInv(Do(Negated, s, es[0]), es[1..]);
    }
  }

  /** Half-close, whenever it is issued before disconnection, finds every accepted byte written. */
  lemma HalfCloseAfterAllBytes(es: seq<Event>, s: Conn, e: Event)
    requires Perform(Negated, Init(), es) == Done(s) && Enabled(s, e)
    requires s.closedAt.None? && Do(Negated, s, e).closedAt.Some? && !s.state.DisConnected?
    ensures Do(Negated, s, e).closedAt.value == Concat(s.messages)
    ensures Do(Negated, s, e).out == []
  {
    RunKeepsInv(Init(), es);
    BytesConserved(Negated, Init(), es);
    var s' := Do(Negated, s, e);
    assert e.RunShutdown? || e.Writable?;
    if e.Writable? {
      WriteConserves(s, e.res);
    }
    assert s'.messages == s.messages;
    assert s'.kernel + [] == s'.kernel;
  }

  /** A shutdown is never forgotten: once the buffer is empty and the queue has run, it is done. */
  lemma ShutdownNotForgotten(es: seq<Event>, s: Conn)
    requires Perform(Negated, Init(), es) == Done(s)
    requires s.state.DisConnecting? && s.out == [] && s.queuedShutdowns == 0
    ensures s.closedAt.Some?
  {
    RunKeepsInv(Init(), es);
  }

  /** Only calls made in the loop thread. */
  predicate InLoopOnly(es: seq<Event>) {
    forall i :: 0 <= i < |es| ==> !es[i].Late?
  }

  /** After the half-close the kernel has been given nothing more, and nothing waits. */
  predicate Frozen(s: Conn) {
    s.closedAt.Some? ==> s.kernel == s.closedAt.value
  }

  lemma {:induction false} RunKeepsFrozen(s: Conn, es: seq<Event>)
    requires Inv(s) && Frozen(s) && InLoopOnly(es) && Perform(Negated, s, es).Done?
    requires s.closedAt.Some? && !s.state.DisConnected? ==> s.out == []
    ensures Frozen(Perform(Negated, s, es).value)
    decreases |es|
  {
    if es != [] {
      StepKeepsInv(s, es[0]);
      assert !es[0].Late?;
      RunKeepsFrozen(Do(Negated, s, es[0]), es[1..]);
    }
  }

  /** With calls from the loop thread only, no byte is written after the half-close. */
  lemma NothingAfterHalfClose(es: seq<Event>, s: Conn)
    requires InLoopOnly(es) && Perform(Negated, Init(), es) == Done(s) && s.closedAt.Some?
    ensures s.kernel == s.closedAt.value
  {
    RunKeepsFrozen(Init(), es);
  }

  lemma {:induction false} HalfClosedEmpty(s: Conn, es: seq<Event>)
    requires Inv(s) && InLoopOnly(es) && Perform(Negated, s, es).Done?
    requires s.closedAt.Some? && !s.state.DisConnected? ==> s.out == []
    ensures var s' := Perform(Negated, s, es).value;
            s'.closedAt.Some? && !s'.state.DisConnected? ==> s'.out == []
    decreases |es|
  {
    if es != [] {
      StepKeepsInv(s, es[0]);
      assert !es[0].Late?;
      HalfClosedEmpty(Do(Negated, s, es[0]), es[1..]);
    }
  }

  /** A half-closed connection that in-loop calls have led to: nothing waits, nothing was written since. */
  lemma HalfClosedState(es: seq<Event>, s: Conn)
    requires InLoopOnly(es) && Perform(Negated, Init(), es) == Done(s) && s.closedAt.Some?
    ensures Inv(s) && Frozen(s) && (!s.state.DisConnected? ==> s.out == [] && !s.writing)
  {
    RunKeepsInv(Init(), es);
    NothingAfterHalfClose(es, s);
    HalfClosedEmpty(Init(), es);
  }

  /** Whatever in-loop calls and events follow, the half-closed stream stays as it was. */
  ghost predicate FrozenForGood(s: Conn) {
    forall es :: InLoopOnly(es) && Perform(Negated, s, es).Done? ==> Frozen(Perform(Negated, s, es).value)
  }

  /** A message that waits after the half-close is written by the next write event. */
  lemma WaitingIsWritten(s: Conn)
    requires s.closedAt.Some? && Frozen(s) && s.out != [] && s.writing && s.polled
    ensures !FrozenForGood(s)
  {
    var es := [Writable(Wrote(|s.out|))];
    var s' := Do(Negated, s, es[0]);
    assert Perform(Negated, s', es[1..]) == Done(s');
    assert |s'.kernel| == |s.kernel| + |s.out|;
    assert InLoopOnly(es) && Perform(Negated, s, es) == Done(s') && !Frozen(s');
  }

  /**
   A send from another thread, run after the half-close, leaves the stream alone for good exactly when
   the connection is disconnected, the kernel reports the peer gone, or there is nothing to send. In
   every other case its bytes are written at once or wait for the next write event: `sendInLoop` does
   not look at kDisConnecting.
   */
  lemma LateSendExactly(es: seq<Event>, s: Conn, data: seq<Byte>, res: WriteResult)
    requires Perform(Negated, Init(), es) == Done(s) && InLoopOnly(es)
    requires s.closedAt.Some? && Enabled(s, Late(data, res))
    ensures FrozenForGood(Do(Negated, s, Late(data, res))) <==> s.state.DisConnected? || res.Broken? || data == []
  {
    HalfClosedState(es, s);
    var s' := Do(Negated, s, Late(data, res));
    if s.state.DisConnected? || res.Broken? || data == [] {
      assert s'.kernel == s.kernel && s'.out == s.out;
      forall es2 | InLoopOnly(es2) && Perform(Negated, s', es2).Done?
        ensures Frozen(Perform(Negated, s', es2).value)
      {
        RunKeepsFrozen(s', es2);
      }
    } else if res.Wrote? && res.n > 0 {
      assert |s'.kernel| == |s.kernel| + res.n;
      assert Perform(Negated, s', []) == Done(s');
      assert InLoopOnly([]);
    } else {
      assert s'.out == data;
      assert s'.kernel == s.kernel;
      WaitingIsWritten(s');
    }
  }

  /** As the text has it, no step ever registers the channel for writing. */
  lemma {:induction false} WrittenNeverRegisters(s: Conn, es: seq<Event>)
    requires !s.writing && Perform(AsWritten, s, es).Done?
    ensures var s' := Perform(AsWritten, s, es).value;
            && !s'.writing && s.out <= s'.out
            && (s.out != [] ==> s'.kernel == s.kernel)
    decreases |es|
  {
    if es != [] {
      WrittenNeverRegisters(Do(AsWritten, s, es[0]), es[1..]);
    }
  }

  /**
   As the text has it, a send keeps registration and buffer in step exactly when the guard of the
   buffering branch is false: the message was written at once, or dropped.
   */
  lemma WrittenSendExactly(s: Conn, data: seq<Byte>, res: WriteResult)
    requires Synced(s) && !s.writing && s.state.Connected? && Possible(res, |data|)
    ensures Synced(Send(AsWritten, s, data, res)) <==> Dropped(s, res) || Taken(s, res) == |data|
  {
  }

  /** The event is a send of which the kernel leaves something to the buffer. */
  predicate LeavesRemainder(s: Conn, e: Event) {
    match e
    case Here(data, res) => s.state.Connected? && !Dropped(s, res) && Taken(s, res) < |data|
    case Late(data, res) => !Dropped(s, res) && Taken(s, res) < |data|
    case _ => false
  }

  /** No send of the run leaves a remainder. */
  predicate AllAtOnce(g: Guard, s: Conn, es: seq<Event>)
    requires Perform(g, s, es).Done?
    decreases |es|
  {
    es == [] || (!LeavesRemainder(s, es[0]) && AllAtOnce(g, Do(g, s, es[0]), es[1..]))
  }

  /** As the text has it, something waits exactly when some send of the run has left a remainder. */
  lemma {:induction false} WrittenWaitsExactly(s: Conn, es: seq<Event>)
    requires !s.writing && Perform(AsWritten, s, es).Done?
    ensures !Perform(AsWritten, s, es).value.writing
    ensures Perform(AsWritten, s, es).value.out == [] <==> s.out == [] && AllAtOnce(AsWritten, s, es)
    decreases |es|
  {
    if es != [] {
      var s1 := Do(AsWritten, s, es[0]);
      assert s1.out == [] <==> s.out == [] && !LeavesRemainder(s, es[0]);
      WrittenWaitsExactly(s1, es[1..]);
    }
  }

  /**
   As the text has it, over every run: the queued half-close, when it comes to be run, is issued at
   once, and finds every accepted byte written exactly when no send of the run has left a remainder.
   */
  lemma WrittenHalfCloseExactly(es: seq<Event>, s: Conn)
    requires Perform(AsWritten, Init(), es) == Done(s) && s.queuedShutdowns > 0 && s.closedAt.None?
    ensures Do(AsWritten, s, RunShutdown).closedAt == Some(s.kernel)
    ensures s.kernel == Concat(s.messages) <==> AllAtOnce(AsWritten, Init(), es)
  {
    WrittenWaitsExactly(Init(), es);
    BytesConserved(AsWritten, Init(), es);
    assert |s.kernel + s.out| == |s.kernel| + |s.out|;
    assert s.out == [] ==> s.kernel + s.out == s.kernel;
  }

  /** An instance: a message the kernel refuses for the moment is still waiting at the half-close. */
  lemma WrittenHalfCloseLosesBytes(data: seq<Byte>)
    requires data != []
    ensures var es := [Establish, Here(data, WouldBlock), AskShutdown, RunShutdown];
            && Perform(AsWritten, Init(), es).Done?
            && Perform(AsWritten, Init(), es).value.closedAt == Some([])
            && Perform(AsWritten, Init(), es).value.out == data
  {
    var e1, e2, e3 := [Here(data, WouldBlock), AskShutdown, RunShutdown], [AskShutdown, RunShutdown], [RunShutdown];
    var es := [Establish] + e1;
    assert es[1..] == e1 && e1[1..] == e2 && e2[1..] == e3;
    var s1 := Do(AsWritten, Init(), Establish);
    var s2 := Do(AsWritten, s1, Here(data, WouldBlock));
    assert s2.out == data;
    var s3 := Do(AsWritten, s2, AskShutdown);
    assert Perform(AsWritten, s3, e3) == Done(Do(AsWritten, s3, RunShutdown));
    assert Perform(AsWritten, s2, e2) == Perform(AsWritten, s3, e3);
    assert Perform(AsWritten, s1, e1) == Perform(AsWritten, s2, e2);
  }
}
