/** The I/O buffer of utils/buffer: a byte array with a read and a write position. */
module Buffers {
  import opened Bytes

  /** Capacity handed to `buffer_init` for both buffers of a connection. */
  const CAPACITY: nat := 8192

  /** What a buffer holds: the read offset and the bytes between the two positions. */
  datatype Buf = Buf(read: nat, pending: seq<byte>) {
    ghost predicate Ok() {
      read + |pending| <= CAPACITY && (pending == [] ==> read == 0)
    }
    predicate CanRead() { pending != [] }
    predicate CanWrite() { CAPACITY > read + |pending| }
    function Free(): int { CAPACITY - read - |pending| }
    function Push(bytes: seq<byte>): Buf { this.(pending := pending + bytes) }
    function Advance(k: nat): Buf
      requires k <= |pending|
    {
      if k == |pending| then EMPTY else Buf(read + k, pending[k..])
    }
  }

  const EMPTY: Buf := Buf(0, [])

  /** A buffer with nothing to read always has its whole capacity free, so it never blocks both ways. */
  lemma NeverStuck(b: Buf)
    requires b.Ok()
    ensures b.CanRead() || b.CanWrite()
    ensures !b.CanRead() ==> b.Free() == CAPACITY
  {
  }

  /** Taking bytes out in two steps is taking them out in one, wherever the rewind happens. */
  lemma AdvanceTwice(b: Buf, j: nat, k: nat)
    requires b.Ok() && j + k <= |b.pending|
    ensures b.Advance(j).Ok() && k <= |b.Advance(j).pending|
    ensures b.Advance(j).Advance(k) == b.Advance(j + k)
    ensures b.pending == b.pending[..j + k] + b.Advance(j + k).pending
  {
    if j < |b.pending| {
      assert b.pending[j..][k..] == b.pending[j + k..];
    }
  }

  class Buffer {
    const data: array<byte>
    var read: nat
    var write: nat

    ghost predicate Valid()
      reads this
    {
      data.Length == CAPACITY && read <= write <= CAPACITY
    }

    ghost function View(): Buf
      requires Valid()
      reads this, data
    {
      Buf(read, data[read..write])
    }

    /** `buffer_init` with the size every connection uses. */
    constructor ()
      ensures Valid() && fresh(data) && View() == EMPTY
    {
      data := new byte[CAPACITY](_ => 0);
      read, write := 0, 0;
    }

    method Reset()
      requires Valid()
      modifies `read, `write
      ensures Valid() && View() == EMPTY
    {
      read, write := 0, 0;
    }

    predicate CanWrite()
      requires Valid()
      reads this, data
      ensures CanWrite() == View().CanWrite()
    {
      data.Length - write > 0
    }

    predicate CanRead()
      requires Valid()
      reads this, data
      ensures CanRead() == View().CanRead()
    {
      write - read > 0
    }

    /** A `read(2)` into `buffer_write_ptr` followed by `buffer_write_adv`. */
    method Append(bytes: seq<byte>)
      requires Valid() && |bytes| <= View().Free()
      modifies `write, data
      ensures Valid() && View() == old(View()).Push(bytes)
    {
      var k := 0;
      ghost var was := data[read..write];
      while k < |bytes|
        invariant 0 <= k <= |bytes|
        invariant write == old(write)
        invariant data[read..write] == was
        invariant data[write..write + k] == bytes[..k]
      {
        data[write + k] := bytes[k];
        k := k + 1;
      }
      write := write + |bytes|;
      assert data[read..write] == data[read..old(write)] + data[old(write)..write];
    }

    method ReadAdvance(bytes: int)
      requires Valid() && bytes <= write - read
      modifies `read, `write, data
      ensures Valid()
      ensures View() == if bytes > -1 then old(View()).Advance(bytes) else old(View())
    {
      if bytes > -1 {
        read := read + bytes;
        if read == write {
          Compact();
        } else {
          assert data[read..write] == old(data[read..write])[bytes..];
        }
      }
    }

    /** `buffer_read`: the next byte, or 0 when there is none. */
    method ReadByte() returns (c: byte)
      requires Valid()
      modifies `read, `write, data
      ensures Valid()
      ensures old(View()).CanRead() ==> c == old(View()).pending[0] && View() == old(View()).Advance(1)
      ensures !old(View()).CanRead() ==> c == 0 && View() == old(View())
    {
      if CanRead() {
        c := data[read];
        ReadAdvance(1);
      } else {
        c := 0;
      }
    }

    /** Moves the unread bytes to the front, keeping them and their order. */
    method Compact()
      requires Valid()
      modifies `read, `write, data
      ensures Valid() && View() == Buf(0, old(View()).pending)
    {
      if read == 0 {
      } else if read == write {
        read, write := 0, 0;
      } else {
        var n := write - read;
        var k := 0;
        while k < n
          invariant 0 <= k <= n && read == old(read) && write == old(write)
          invariant forall m :: 0 <= m < k ==> data[m] == old(data[read + m])
          invariant forall m :: read + k <= m < write ==> data[m] == old(data[m])
        {
          data[k] := data[read + k];
          k := k + 1;
        }
        assert data[..n] == old(data[read..write]);
        read, write := 0, n;
      }
    }
  }
}
