/**
 The connection against its events alone: which bytes callers have handed over, how many the kernel
 has taken, and what is therefore written and waiting. The reference looks at the events, at whether
 something waits and at the state, never at what the connection itself has recorded.
 */
module ConnectionHistory {
  import opened Basics
  import opened ConnectionModel

  /** A write goes straight to the kernel: nothing waits and the channel does not ask for writing. */
  predicate Straight(s: Conn) {
    s.out == [] && !s.writing
  }

  /** The message the event hands over: not before or after the connection, and not to a peer found gone. */
  function MessageOf(s: Conn, e: Event): seq<Byte> {
    match e
    case Here(data, res) => if s.state == Connected && !(Straight(s) && res.Broken?) then data else []
    case Late(data, res) => if s.state != DisConnected && !(Straight(s) && res.Broken?) then data else []
    case _ => []
  }

  /** The bytes the kernel takes at the event, when the event gets as far as a write. */
  function TakenAt(s: Conn, e: Event): nat {
    match e
    case Here(_, res) => if s.state == Connected && Straight(s) && res.Wrote? then res.n else 0
    case Late(_, res) => if s.state != DisConnected && Straight(s) && res.Wrote? then res.n else 0
    case Writable(res) => if s.writing && res.Wrote? then res.n else 0
    case _ => 0
  }

  /** Everything handed over in a run, in order. */
  function Accepted(g: Guard, s: Conn, es: seq<Event>): seq<Byte>
    requires Perform(g, s, es).Done?
    decreases |es|
  {
    if es == [] then [] else MessageOf(s, es[0]) + Accepted(g, Do(g, s, es[0]), es[1..])
  }

  /** How many bytes the kernel has taken in a run. */
  function TakenIn(g: Guard, s: Conn, es: seq<Event>): nat
    requires Perform(g, s, es).Done?
    decreases |es|
  {
    if es == [] then 0 else TakenAt(s, es[0]) + TakenIn(g, Do(g, s, es[0]), es[1..])
  }

  /** One event: the bytes written and waiting grow by its message, the bytes written by what is taken. */
  lemma EventAccounted(g: Guard, s: Conn, e: Event)
    requires Enabled(s, e)
    ensures var s' := Do(g, s, e);
            && s'.kernel + s'.out == s.kernel + s.out + MessageOf(s, e)
            && |s'.kernel| == |s.kernel| + TakenAt(s, e)
            && Concat(s'.messages) == Concat(s.messages) + MessageOf(s, e)
  {
    var s' := Do(g, s, e);
    match e {
      case Here(data, res) => if s.state.Connected? { SendAccounted(g, s, data, res); }
      case Late(data, res) => SendAccounted(g, s, data, res);
      case Writable(res) => WriteAccounted(s, res);
      case _ =>
    }
    assert s.kernel + s.out + [] == s.kernel + s.out && Concat(s.messages) + [] == Concat(s.messages);
  }

  lemma SendAccounted(g: Guard, s: Conn, data: seq<Byte>, res: WriteResult)
    requires Possible(res, |data|)
    ensures var s', kept := SendInLoop(g, s, data, res), s.state != DisConnected && !(Straight(s) && res.Broken?);
            && s'.kernel + s'.out == s.kernel + s.out + (if kept then data else [])
            && |s'.kernel| == |s.kernel| + (if kept && Straight(s) && res.Wrote? then res.n else 0)
            && Concat(s'.messages) == Concat(s.messages) + (if kept then data else [])
  {
    var s' := SendInLoop(g, s, data, res);
    if s.state != DisConnected && !(Straight(s) && res.Broken?) {
      var n := if Straight(s) && res.Wrote? then res.n else 0;
      ConcatOne(s.messages, data);
      CutJoins(s.kernel, s.out, data, n);
      assert n == |data| ==> s.out + data[n..] == s.out;
    } else {
      assert s.kernel + s.out + [] == s.kernel + s.out && Concat(s.messages) + [] == Concat(s.messages);
    }
  }

  lemma WriteAccounted(s: Conn, res: WriteResult)
    requires Possible(res, |s.out|)
    ensures var s' := HandleWrite(s, res);
            && s'.kernel + s'.out == s.kernel + s.out
            && |s'.kernel| == |s.kernel| + (if s.writing && res.Wrote? then res.n else 0)
            && s'.messages == s.messages
  {
    if s.writing && res.Wrote? {
      assert s.out == s.out[..res.n] + s.out[res.n..];
      assert (s.kernel + s.out[..res.n]) + s.out[res.n..] == s.kernel + s.out;
    }
  }

  lemma {:induction false} RunAccounted(g: Guard, s: Conn, es: seq<Event>)
    requires Perform(g, s, es).Done?
    ensures var s' := Perform(g, s, es).value;
            && s'.kernel + s'.out == s.kernel + s.out + Accepted(g, s, es)
            && |s'.kernel| == |s.kernel| + TakenIn(g, s, es)
            && Concat(s'.messages) == Concat(s.messages) + Accepted(g, s, es)
    decreases |es|
  {
    if es != [] {
      var s1, rest := Do(g, s, es[0]), es[1..];
      EventAccounted(g, s, es[0]);
      RunAccounted(g, s1, rest);
      Regroup(s.kernel + s.out, MessageOf(s, es[0]), Accepted(g, s1, rest));
      Regroup(Concat(s.messages), MessageOf(s, es[0]), Accepted(g, s1, rest));
    } else {
      assert s.kernel + s.out + [] == s.kernel + s.out && Concat(s.messages) + [] == Concat(s.messages);
    }
  }

  lemma Regroup(a: seq<Byte>, b: seq<Byte>, c: seq<Byte>)
    ensures (a + b) + c == a + (b + c)
  {
  }

  /**
   Over every run, whatever the partial writes and errors: what has been written is the first part of
   what callers handed over, as long as the kernel took, and what waits is the rest of it.
   */
  lemma WrittenAndWaiting(g: Guard, es: seq<Event>, s: Conn)
    requires Perform(g, Init(), es) == Done(s)
    ensures TakenIn(g, Init(), es) <= |Accepted(g, Init(), es)|
    ensures s.kernel == Accepted(g, Init(), es)[..TakenIn(g, Init(), es)]
    ensures s.out == Accepted(g, Init(), es)[TakenIn(g, Init(), es)..]
    ensures Concat(s.messages) == Accepted(g, Init(), es)
  {
    RunAccounted(g, Init(), es);
    var all := Accepted(g, Init(), es);
    assert [] + [] + all == all;
    assert s.kernel + s.out == all;
    assert all[..|s.kernel|] == s.kernel && all[|s.kernel|..] == s.out;
  }

  /** A half-close issued before disconnection finds everything handed over so far written. */
  lemma HalfCloseFindsAll(es: seq<Event>, s: Conn, e: Event)
    requires Perform(Negated, Init(), es) == Done(s) && Enabled(s, e)
    requires s.closedAt.None? && Do(Negated, s, e).closedAt.Some? && !s.state.DisConnected?
    ensures Do(Negated, s, e).closedAt.value == Accepted(Negated, Init(), es)
    ensures Do(Negated, s, e).kernel == Accepted(Negated, Init(), es)
  {
    HalfCloseAfterAllBytes(es, s, e);
    WrittenAndWaiting(Negated, es, s);
    EventAccounted(Negated, s, e);
    var s' := Do(Negated, s, e);
    assert s'.kernel + [] == s'.kernel;
  }

  /** As the text has it, over every run: the queued half-close finds all written exactly when nothing was left. */
  lemma WrittenHalfCloseFindsAll(es: seq<Event>, s: Conn)
    requires Perform(AsWritten, Init(), es) == Done(s) && s.queuedShutdowns > 0 && s.closedAt.None?
    ensures Do(AsWritten, s, RunShutdown).closedAt == Some(Accepted(AsWritten, Init(), es)) <==>
      TakenIn(AsWritten, Init(), es) == |Accepted(AsWritten, Init(), es)|
  {
    WrittenHalfCloseExactly(es, s);
    WrittenAndWaiting(AsWritten, es, s);
  }
}
