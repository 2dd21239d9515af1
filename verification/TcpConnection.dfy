/**
 The connection as the object the source updates step by step, over its output buffer. Each method
 computes the function of the same name on the connection value.
 */
module TcpConnection {
  import opened Basics
  import B = Buffer
  import opened C = ConnectionModel

  class TcpConnection {
    const guard: Guard
    const out: B.Buffer
    var state: ConnState
    var reading: bool
    var writing: bool
    var polled: bool
    var queuedShutdowns: nat
    ghost var kernel: seq<Byte>
    ghost var messages: seq<seq<Byte>>
    ghost var closedAt: Option<seq<Byte>>

    ghost predicate Shape()
      reads this, out, out.buffer
    {
      out.Valid()
    }

    ghost function Model(): Conn
      requires Shape()
      reads this, out, out.buffer
    {
      Conn(state, reading, writing, polled, out.Contents(), kernel, messages, queuedShutdowns, closedAt)
    }

    /** No byte is lost, repeated or reordered; with the guard negated, registration follows the buffer. */
    ghost predicate Valid()
      reads this, out, out.buffer
    {
      Shape() && Conserved(Model()) && (guard.Negated? ==> Inv(Model()))
    }

    constructor (g: Guard)
      ensures guard == g && Valid() && fresh(out) && fresh(out.buffer) && Model() == C.Init()
    {
      guard := g;
      out := new B.Buffer(B.INITIAL_SIZE);
      state, reading, writing, polled, queuedShutdowns := Connecting, false, false, false, 0;
      kernel, messages, closedAt := [], [], None;
    }

    /** What the kernel did not take waits in the buffer, and the channel asks for writability. */
    method Keep(rest: seq<Byte>)
      requires Shape()
      modifies this`writing, this`polled, out, out.buffer
      ensures Shape() && (out.buffer == old(out.buffer) || fresh(out.buffer))
      ensures var r := if guard.AsWritten? then old(writing) else !old(writing);
              Model() == old(Model()).(out := old(out.Contents()) + rest, writing := old(writing) || r,
                polled := old(polled) || r)
    {
      out.Append(rest);
      if (if guard.AsWritten? then writing else !writing) {
        writing := true;
        polled := true;
      }
    }

    /** The direct write, when nothing waits: how much the kernel took, and whether the peer is gone. */
    method WriteDirect(data: seq<Byte>, res: WriteResult) returns (nwrote: nat, faultError: bool)
      requires Shape() && Possible(res, |data|) && state != DisConnected
      modifies this`kernel
      ensures Shape() && nwrote == Taken(old(Model()), res) && faultError == Dropped(old(Model()), res)
      ensures Model() == old(Model()).(kernel := old(kernel) + data[..nwrote])
    {
      nwrote, faultError := 0, false;
      if !writing && out.ReadableBytes() == 0 {
        match res {
          case Wrote(n) => nwrote := n;
          case Broken => faultError := true;
          case WouldBlock =>
          case Failed =>
        }
      }
      kernel := kernel + data[..nwrote];
    }

    /** The body of `sendInLoop`: direct write, drop or buffering. */
    method Transmit(data: seq<Byte>, res: WriteResult)
      requires Shape() && Possible(res, |data|)
      modifies this, out, out.buffer
      ensures Shape() && (out.buffer == old(out.buffer) || fresh(out.buffer))
      ensures Model() == C.SendInLoop(guard, old(Model()), data, res)
    {
      if state == DisConnected {
        return;
      }
      ghost var s := Model();
      var nwrote, faultError := WriteDirect(data, res);
      if faultError {
        assert s.kernel + data[..nwrote] == s.kernel;
        return;
      }
      var remaining := |data| - nwrote;
      messages := messages + [data];
      if remaining > 0 {
        Keep(data[nwrote..]);
      }
    }

    /** `sendInLoop`, called in the loop or queued by a sender that saw kConnected. */
    method SendInLoop(data: seq<Byte>, res: WriteResult)
      requires Valid() && Possible(res, |data|) && state != Connecting
      modifies this, out, out.buffer
      ensures Valid() && (out.buffer == old(out.buffer) || fresh(out.buffer))
      ensures Model() == C.SendInLoop(guard, old(Model()), data, res)
    {
      ghost var s := Model();
      SendConserves(guard, s, data, res);
      if guard.Negated? {
        StepKeepsInv(s, Late(data, res));
      }
      Transmit(data, res);
    }

    method Send(data: seq<Byte>, res: WriteResult)
      requires Valid() && Possible(res, |data|)
      modifies this, out, out.buffer
      ensures Valid() && (out.buffer == old(out.buffer) || fresh(out.buffer))
      ensures Model() == C.Send(guard, old(Model()), data, res)
    {
      if state == Connected {
        SendInLoop(data, res);
      }
    }

    /** Half-closes unless the channel is registered for writing. */
    method ShutdownInLoop()
      requires Shape()
      modifies this`closedAt
      ensures Shape() && Model() == C.ShutdownInLoop(old(Model()))
    {
      if !writing {
        closedAt := if closedAt.Some? then closedAt else Some(kernel);
      }
    }

    /** The loop runs a queued `shutdownInLoop`. */
    method RunShutdown()
      requires Valid() && queuedShutdowns > 0
      modifies this`closedAt, this`queuedShutdowns
      ensures Valid() && Model() == Do(guard, old(Model()), Event.RunShutdown)
    {
      ghost var s := Model();
      if guard.Negated? {
        StepKeepsInv(s, Event.RunShutdown);
      }
      queuedShutdowns := queuedShutdowns - 1;
      ShutdownInLoop();
    }

    method Shutdown()
      requires Valid()
      modifies this`state, this`queuedShutdowns
      ensures Valid() && Model() == C.Shutdown(old(Model()))
    {
      if state == Connected {
        state := DisConnecting;
        queuedShutdowns := queuedShutdowns + 1;
      }
    }

    /** The body of `handleWrite`. */
    method Flush(res: WriteResult)
      requires Shape() && Possible(res, out.ReadableBytes())
      modifies this, out, out.buffer
      ensures Shape() && out.buffer == old(out.buffer)
      ensures Model() == C.HandleWrite(old(Model()), res)
    {
      if writing {
        if res.Wrote? && res.n > 0 {
          kernel := kernel + out.Contents()[..res.n];
          out.Retrieve(res.n);
          if out.ReadableBytes() == 0 {
            writing := false;
            if state == DisConnecting {
              ShutdownInLoop();
            }
          }
        }
      }
    }

    /** `handleWrite`, on a write event of a channel the poller has. */
    method HandleWrite(res: WriteResult)
      requires Valid() && Possible(res, out.ReadableBytes()) && polled
      modifies this, out, out.buffer
      ensures Valid() && out.buffer == old(out.buffer)
      ensures Model() == C.HandleWrite(old(Model()), res)
    {
      ghost var s := Model();
      WriteConserves(s, res);
      if guard.Negated? {
        StepKeepsInv(s, Writable(res));
      }
      Flush(res);
    }

    method HandleClose()
      requires Valid()
      modifies this`state, this`reading, this`writing, this`polled
      ensures Valid() && Model() == C.HandleClose(old(Model()))
    {
      state := DisConnected;
      reading, writing, polled := false, false, true;
    }

    /** Called once, on a connection that is being set up. */
    method ConnectEstablished()
      requires Valid() && state == Connecting
      modifies this`state, this`reading, this`polled
      ensures Valid() && Model() == C.ConnectEstablished(old(Model()))
    {
      state := Connected;
      reading, polled := true, true;
    }

    method ConnectDestroyed()
      requires Valid()
      modifies this`state, this`reading, this`writing, this`polled
      ensures Valid() && Model() == C.ConnectDestroyed(old(Model()))
    {
      if state == Connected {
        HandleClose();
      }
      polled := false;
    }
  }
}
