/**
 Channels and the epoll poller they register with, against the kernel's interest set. `epoll_ctl` is
 the ghost map it changes: an ADD of a registered descriptor, or a MOD or DEL of an unregistered one,
 is the error it reports, and is counted.
 */
module Poller {
  type Events = bv32

  const NONE_EVENT: Events := 0
  const READ_EVENT: Events := 3    // EPOLLIN | EPOLLPRI
  const WRITE_EVENT: Events := 4   // EPOLLOUT

  /** The three values of `index_`. */
  datatype Index = New | Added | Deleted

  datatype CtlOp = Add | Mod | Del

  class Channel {
    const fd: int
    var events: Events
    var index: Index

    constructor (n: int)
      ensures fd == n && events == NONE_EVENT && index == New
    {
      fd, events, index := n, NONE_EVENT, New;
    }

    predicate IsNoneEvents() reads this { events == NONE_EVENT }

    predicate IsWriting() reads this { events & WRITE_EVENT != 0 }

    predicate IsReading() reads this { events & READ_EVENT != 0 }
  }

  class EpollPoller {
    var channels: map<int, Channel>
    ghost var kernel: map<int, Events>
    ghost var errors: nat
    /** The channels of this loop: those alive, registered or not. */
    ghost var known: set<Channel>

    ghost predicate DistinctFds()
      reads this
    {
      forall c, d :: c in known && d in known && c.fd == d.fd ==> c == d
    }

    /** The channel map has an entry exactly for the channels whose index is not kNew. */
    ghost predicate MapOk(c: Channel)
      reads this, c
    {
      (c.index != New <==> c.fd in channels) && (c.fd in channels ==> channels[c.fd] == c)
    }

    /** The kernel has the descriptor exactly when the index is kAdded, with the channel's own mask. */
    ghost predicate KernelOk(c: Channel)
      reads this, c
    {
      (c.index == Added <==> c.fd in kernel) && (c.fd in kernel ==> kernel[c.fd] == c.events)
    }

    /** `changed` is a channel whose mask has been set and not yet passed on. */
    ghost predicate ValidBut(changed: set<Channel>)
      reads this, known
    {
      && DistinctFds() && errors == 0
      && (forall c :: c in known ==> MapOk(c) && (c.index == Added <==> c.fd in kernel))
      && (forall c :: c in known && c !in changed ==> KernelOk(c))
      && (forall fd :: fd in channels ==> channels[fd] in known && channels[fd].fd == fd)
      && (forall fd :: fd in kernel ==> fd in channels)
    }

    ghost predicate Valid()
      reads this, known
    {
      ValidBut({})
    }

    constructor ()
      ensures Valid() && known == {} && kernel == map[] && channels == map[]
    {
      channels, kernel, errors, known := map[], map[], 0, {};
    }

    /** A channel on a descriptor no living channel uses. */
    method Adopt(c: Channel)
      requires Valid() && c.index == New && forall d :: d in known ==> d.fd != c.fd
      modifies this`known
      ensures Valid() && known == old(known) + {c}
    {
      known := known + {c};
    }

    /** A channel is destroyed after it has been removed. */
    method Forget(c: Channel)
      requires Valid() && c in known && c.index == New
      modifies this`known
      ensures Valid() && known == old(known) - {c}
    {
      known := known - {c};
    }

    /** `epoll_ctl` as the kernel does it. */
    method Update(op: CtlOp, c: Channel)
      modifies this`kernel, this`errors
      ensures op.Add? && c.fd !in old(kernel) ==> kernel == old(kernel)[c.fd := c.events] && errors == old(errors)
      ensures op.Mod? && c.fd in old(kernel) ==> kernel == old(kernel)[c.fd := c.events] && errors == old(errors)
      ensures op.Del? && c.fd in old(kernel) ==> kernel == old(kernel) - {c.fd} && errors == old(errors)
      ensures (op.Add? <==> c.fd in old(kernel)) ==> kernel == old(kernel) && errors == old(errors) + 1
    {
      if op.Add? <==> c.fd in kernel {
        errors := errors + 1;
      } else if op.Del? {
        kernel := kernel - {c.fd};
      } else {
        kernel := kernel[c.fd := c.events];
      }
    }

    /** An empty mask takes a registered channel out of the kernel; every other case registers it. */
    method UpdateChannel(c: Channel)
      requires ValidBut({c}) && c in known
      modifies this`channels, this`kernel, this`errors, c`index
      ensures Valid()
      ensures var gone := old(c.index) == Added && c.events == NONE_EVENT;
              && c.index == (if gone then Deleted else Added)
              && kernel == (if gone then old(kernel) - {c.fd} else old(kernel)[c.fd := c.events])
              && channels == old(channels)[c.fd := c]
    {
      if c.index == New || c.index == Deleted {
        if c.index == New {
          channels := channels[c.fd := c];
        }
        c.index := Added;
        Update(Add, c);
      } else {
        if c.IsNoneEvents() {
          Update(Del, c);
          c.index := Deleted;
        } else {
          Update(Mod, c);
        }
      }
    }

    method RemoveChannel(c: Channel)
      requires Valid() && c in known
      modifies this`channels, this`kernel, this`errors, c`index
      ensures Valid() && c.index == New
      ensures channels == old(channels) - {c.fd} && kernel == old(kernel) - {c.fd}
    {
      channels := channels - {c.fd};
      if c.index == Added {
        Update(Del, c);
      }
      c.index := New;
    }

    /** What setting the mask and passing it on amounts to. */
    twostate predicate Applied(c: Channel, events: Events)
      reads this, c
    {
      var gone := old(c.index) == Added && events == NONE_EVENT;
      && c.events == events && c.index == (if gone then Deleted else Added)
      && kernel == (if gone then old(kernel) - {c.fd} else old(kernel)[c.fd := events])
      && channels == old(channels)[c.fd := c]
    }

    method EnableReading(c: Channel)
      requires Valid() && c in known
      modifies this`channels, this`kernel, this`errors, c`index, c`events
      ensures Valid() && Applied(c, old(c.events) | 3)
      ensures c.IsReading() && (c.IsWriting() <==> old(c.IsWriting()))
    {
      c.events := c.events | READ_EVENT;
      UpdateChannel(c);
    }

    method DisableReading(c: Channel)
      requires Valid() && c in known
      modifies this`channels, this`kernel, this`errors, c`index, c`events
      ensures Valid() && Applied(c, old(c.events) & !3)
      ensures !c.IsReading() && (c.IsWriting() <==> old(c.IsWriting()))
    {
      c.events := c.events & !READ_EVENT;
      UpdateChannel(c);
    }

    method EnableWriting(c: Channel)
      requires Valid() && c in known
      modifies this`channels, this`kernel, this`errors, c`index, c`events
      ensures Valid() && Applied(c, old(c.events) | 4)
      ensures c.IsWriting() && (c.IsReading() <==> old(c.IsReading()))
    {
      c.events := c.events | WRITE_EVENT;
      UpdateChannel(c);
    }

    method DisableWriting(c: Channel)
      requires Valid() && c in known
      modifies this`channels, this`kernel, this`errors, c`index, c`events
      ensures Valid() && Applied(c, old(c.events) & !4)
      ensures !c.IsWriting() && (c.IsReading() <==> old(c.IsReading()))
    {
      c.events := c.events & !WRITE_EVENT;
      UpdateChannel(c);
    }

    method DisableAll(c: Channel)
      requires Valid() && c in known
      modifies this`channels, this`kernel, this`errors, c`index, c`events
      ensures Valid() && Applied(c, 0)
      ensures !c.IsReading() && !c.IsWriting()
    {
      c.events := NONE_EVENT;
      UpdateChannel(c);
    }
  }
}
