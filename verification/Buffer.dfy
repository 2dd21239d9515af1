/** The network buffer: a byte queue in an array, with room kept in front of the readable bytes. */
module Buffer {
  import opened Basics

  type Byte = bv8

  const CHEAP_PREPEND: nat := 8
  const INITIAL_SIZE: nat := 1024
  const EXTRA: nat := 65536

  /** Copies `n` bytes forwards; correct for overlapping ranges when they move down. */
  method CopyDown(a: array<Byte>, from: nat, to: nat, n: nat)
    requires to <= from && from + n <= a.Length
    modifies a
    ensures a[to..to + n] == old(a[from..from + n])
    ensures a[..to] == old(a[..to])
  {
    ghost var src := a[from..from + n];
    var i := 0;
    while i < n
      invariant 0 <= i <= n
      invariant forall k :: to <= k < to + i ==> a[k] == src[k - to]
      invariant forall k :: from + i <= k < from + n ==> a[k] == src[k - from]
      invariant forall k :: 0 <= k < to ==> a[k] == old(a[k])
    {
      a[to + i] := a[from + i];
      i := i + 1;
    }
  }

  /** Copies a byte sequence into the array. */
  method CopyIn(a: array<Byte>, at: nat, data: seq<Byte>)
    requires at + |data| <= a.Length
    modifies a
    ensures a[at..at + |data|] == data && a[..at] == old(a[..at])
  {
    var i := 0;
    while i < |data|
      invariant 0 <= i <= |data|
      invariant forall k :: 0 <= k < i ==> a[at + k] == data[k]
      invariant forall k :: 0 <= k < at ==> a[k] == old(a[k])
    {
      a[at + i] := data[i];
      i := i + 1;
    }
  }

  class Buffer {
    var buffer: array<Byte>
    var readerIndex: nat
    var writerIndex: nat
    /** Everything ever put in, and everything ever taken out. */
    ghost var put: seq<Byte>
    ghost var got: seq<Byte>

    ghost predicate Shape()
      reads this
    {
      CHEAP_PREPEND <= readerIndex <= writerIndex <= buffer.Length
    }

    ghost function Contents(): seq<Byte>
      requires Shape()
      reads this, buffer
    {
      buffer[readerIndex..writerIndex]
    }

    ghost predicate Valid()
      reads this, buffer
    {
      Shape() && put == got + Contents()
    }

    constructor (initialSize: nat)
      ensures Valid() && fresh(buffer) && Contents() == [] && put == [] && got == []
      ensures WritableBytes() == initialSize
    {
      buffer := new Byte[CHEAP_PREPEND + initialSize](_ => 0);
      readerIndex, writerIndex := CHEAP_PREPEND, CHEAP_PREPEND;
      put, got := [], [];
    }

    function ReadableBytes(): (n: nat)
      requires Shape()
      reads this, buffer
      ensures n == |Contents()|
    {
      writerIndex - readerIndex
    }

    function WritableBytes(): nat
      requires Shape()
      reads this
    {
      buffer.Length - writerIndex
    }

    function PrependableBytes(): nat
      reads this
    {
      readerIndex
    }

    /** More than is there takes everything. */
    method Retrieve(len: nat)
      requires Valid()
      modifies this`readerIndex, this`writerIndex, this`got
      ensures Valid() && put == old(put)
      ensures var n := if len < |old(Contents())| then len else |old(Contents())|;
              Contents() == old(Contents())[n..] && got == old(got) + old(Contents())[..n]
      ensures if len < |old(Contents())| then readerIndex == old(readerIndex) + len && writerIndex == old(writerIndex)
              else readerIndex == 8 && writerIndex == 8
    {
      if len < ReadableBytes() {
        got := got + Contents()[..len];
        readerIndex := readerIndex + len;
      } else {
        RetrieveAll();
      }
    }

    method RetrieveAll()
      requires Valid()
      modifies this`readerIndex, this`writerIndex, this`got
      ensures Valid() && put == old(put)
      ensures Contents() == [] && got == old(got) + old(Contents())
      ensures readerIndex == 8 && writerIndex == 8
    {
      got := got + Contents();
      readerIndex, writerIndex := CHEAP_PREPEND, CHEAP_PREPEND;
    }

    /**
     Asked for more than is readable, it returns whatever lies behind the contents as well, and past the
     end of the array it reads foreign memory.
     */
    method RetrieveAsString(len: nat) returns (r: Outcome<seq<Byte>>)
      requires Valid()
      modifies this`readerIndex, this`writerIndex, this`got
      ensures Valid() && put == old(put)
      ensures r.Fault? <==> old(readerIndex) + len > buffer.Length
      ensures r.Done? ==> |r.value| == len
      ensures r.Done? && len <= |old(Contents())| ==>
        && r.value == old(Contents())[..len] && Contents() == old(Contents())[len..]
        && got == old(got) + r.value
      ensures r.Done? && len > |old(Contents())| ==>
        old(Contents()) <= r.value && Contents() == [] && got == old(got) + old(Contents())
    {
      if readerIndex + len > buffer.Length {
        return Fault;
      }
      r := Done(buffer[readerIndex..readerIndex + len]);
      Retrieve(len);
    }

    /** Grows the array, keeping what was written. */
    method Resize(n: nat)
      requires Valid() && n >= buffer.Length
      modifies this`buffer
      ensures Valid() && buffer.Length == n && fresh(buffer) && Contents() == old(Contents())
    {
      var grown := new Byte[n](_ => 0);
      CopyIn(grown, 0, buffer[..]);
      assert grown[..buffer.Length] == buffer[..];
      assert grown[readerIndex..writerIndex] == grown[..buffer.Length][readerIndex..writerIndex];
      buffer := grown;
    }

    /** Moves the readable bytes down to where reading starts. */
    method Compact()
      requires Valid()
      modifies this`readerIndex, this`writerIndex, buffer
      ensures Valid() && Contents() == old(Contents()) && buffer == old(buffer)
      ensures readerIndex == CHEAP_PREPEND
      ensures WritableBytes() == old(WritableBytes()) + old(readerIndex) - CHEAP_PREPEND
    {
      var readable := ReadableBytes();
      CopyDown(buffer, readerIndex, CHEAP_PREPEND, readable);
      readerIndex := CHEAP_PREPEND;
      writerIndex := readerIndex + readable;
    }

    /** Called only when the room behind is short; the bytes move only when there is room in front. */
    method MakeSpace(len: nat)
      requires Valid() && WritableBytes() < len
      modifies this`buffer, this`readerIndex, this`writerIndex, buffer
      ensures Valid() && Contents() == old(Contents()) && WritableBytes() >= len
      ensures buffer == old(buffer) || fresh(buffer)
      ensures buffer == old(buffer) <==> old(WritableBytes() + PrependableBytes()) >= len + CHEAP_PREPEND
      ensures buffer == old(buffer) ==> old(readerIndex) > CHEAP_PREPEND && readerIndex == CHEAP_PREPEND
      ensures buffer != old(buffer) ==> readerIndex == old(readerIndex) && buffer.Length == old(writerIndex) + len
    {
      if WritableBytes() + PrependableBytes() < len + CHEAP_PREPEND {
        Resize(writerIndex + len);
      } else {
        assert readerIndex > CHEAP_PREPEND;
        Compact();
      }
    }

    /** Nothing moves while there is room behind; the array grows only when front and back are too short. */
    method EnsureWritableBytes(len: nat)
      requires Valid()
      modifies this`buffer, this`readerIndex, this`writerIndex, buffer
      ensures Valid() && Contents() == old(Contents()) && WritableBytes() >= len
      ensures buffer == old(buffer) || fresh(buffer)
      ensures old(WritableBytes()) >= len ==>
        buffer == old(buffer) && readerIndex == old(readerIndex) && writerIndex == old(writerIndex)
      ensures old(WritableBytes()) < len ==>
        (buffer == old(buffer) <==> old(WritableBytes() + PrependableBytes()) >= len + CHEAP_PREPEND)
    {
      if WritableBytes() < len {
        MakeSpace(len);
      }
    }

    method Append(data: seq<Byte>)
      requires Valid()
      modifies this`buffer, this`readerIndex, this`writerIndex, this`put, buffer
      ensures Valid() && Contents() == old(Contents()) + data
      ensures put == old(put) + data
      ensures buffer == old(buffer) || fresh(buffer)
      ensures old(WritableBytes()) >= |data| ==> buffer == old(buffer) && readerIndex == old(readerIndex)
      ensures old(WritableBytes()) < |data| ==>
        (buffer == old(buffer) <==> old(WritableBytes() + PrependableBytes()) >= |data| + CHEAP_PREPEND)
    {
      EnsureWritableBytes(|data|);
      Store(data);
    }

    /** Writes behind the readable bytes, where there is room. */
    method Store(data: seq<Byte>)
      requires Valid() && |data| <= WritableBytes()
      modifies this`writerIndex, this`put, buffer
      ensures Valid() && Contents() == old(Contents()) + data
      ensures put == old(put) + data && writerIndex == old(writerIndex) + |data|
    {
      ghost var was := Contents();
      ghost var r, w := readerIndex, writerIndex;
      CopyIn(buffer, writerIndex, data);
      writerIndex := writerIndex + |data|;
      put := put + data;
      assert buffer[r..w] == buffer[..w][r..w] == was;
      assert buffer[r..w + |data|] == buffer[r..w] + buffer[w..w + |data|];
    }

    /** How much one scatter read may return: the room behind, and 64 KiB more when that is short. */
    function ReadCapacity(): (n: nat)
      requires Shape()
      reads this
      ensures n >= 65536 && (n == WritableBytes() || (n == WritableBytes() + 65536 && WritableBytes() < 65536))
    {
      if WritableBytes() < EXTRA then WritableBytes() + EXTRA else WritableBytes()
    }

    /** `readFd`: `input` is what the kernel delivers, or nothing on an error. */
    method ReadFd(input: Option<seq<Byte>>) returns (n: int)
      requires Valid() && (input.Some? ==> |input.value| <= ReadCapacity())
      modifies this`buffer, this`readerIndex, this`writerIndex, this`put, buffer
      ensures Valid() && (buffer == old(buffer) || fresh(buffer))
      ensures input.None? || |input.value| <= old(WritableBytes()) ==>
        buffer == old(buffer) && readerIndex == old(readerIndex)
      ensures input.None? ==> n == -1 && Contents() == old(Contents()) && put == old(put)
      ensures input.Some? ==>
        n == |input.value| && Contents() == old(Contents()) + input.value && put == old(put) + input.value
    {
      if input.None? {
        return -1;
      }
      var data, writable := input.value, WritableBytes();
      n := |data|;
      if n <= writable {
        Store(data);
      } else {
        Store(data[..writable]);
        assert writerIndex == buffer.Length;
        Append(data[writable..]);
        assert data == data[..writable] + data[writable..];
      }
    }
  }
}
