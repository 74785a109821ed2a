/** The ring buffer of kernel/fs/pipe.c: what one pass through each of its critical sections
    does to the bytes in flight. */
module Pipe {
  import opened CStrings
  import opened PhysicalMemory

  // ---- Positions in a ring ----

  lemma ModUnique(x: int, size: nat, q: int, r: nat)
    requires size > 0 && r < size && x == q * size + r
    ensures x % size == r
  {
    var d := x / size - q;
    assert x == x / size * size + x % size;
    assert d * size == r - x % size by {
      assert x / size * size == (q + d) * size == q * size + d * size;
    }
    MulBound(d, size);
  }

  lemma MulBound(d: int, size: nat)
    ensures (d >= 1 ==> d * size >= size) && (d <= -1 ==> d * size + size <= 0)
  {
    if d >= 1 {
      assert d * size == size + (d - 1) * size;
    } else if d <= -1 {
      assert d * size + size == (d + 1) * size;
    }
  }

  /** Where position p + k lies, for k up to a full ring ahead of p. */
  function Slot(p: nat, k: nat, size: nat): nat
    requires size > 0
  {
    var b := p % size;
    if b + k < size then b + k else b + k - size
  }

  lemma SlotIs(p: nat, k: nat, size: nat)
    requires size > 0 && k < size
    ensures (p + k) % size == Slot(p, k, size) < size
  {
    var b, q := p % size, p / size;
    if b + k < size {
      ModUnique(p + k, size, q, b + k);
    } else {
      assert (q + 1) * size == q * size + size;
      ModUnique(p + k, size, q + 1, b + k - size);
    }
  }

  lemma SlotAhead(p: nat, j: nat, k: nat, size: nat)
    requires size > 0 && j + k < size
    ensures Slot(p + j, k, size) == Slot(p, j + k, size)
  {
    SlotIs(p + j, k, size);
    SlotIs(p, j + k, size);
  }

  /** The n bytes of the stream from position p on. */
  ghost function Ring(b: seq<Byte>, p: nat, n: nat): (r: seq<Byte>)
    requires n <= |b|
    ensures |r| == n
  {
    seq(n, k requires 0 <= k < n => b[Slot(p, k, |b|)])
  }

  lemma RingTail(b: seq<Byte>, p: nat, n: nat, m: nat)
    requires m <= n <= |b|
    ensures Ring(b, p + m, n - m) == Ring(b, p, n)[m..]
  {
    forall k: nat | k < n - m
      ensures Ring(b, p + m, n - m)[k] == Ring(b, p, n)[m..][k]
    {
      SlotAhead(p, m, k, |b|);
    }
  }

  /** m bytes read at position p, in one piece up to the end of the ring and one after it. */
  lemma RingRead(b: seq<Byte>, p: nat, n: nat, m: nat)
    requires 0 < n <= |b| && m <= n
    ensures Ring(b, p, n)[..m] == Wrapped(b, p % |b|, m)
  {
  }

  /** m bytes of b from at on, and on from the start when b ends. */
  ghost function Wrapped(b: seq<Byte>, at: nat, m: nat): seq<Byte>
    requires at < |b| && m <= |b|
  {
    if at + m <= |b| then b[at..at + m] else b[at..] + b[..at + m - |b|]
  }

  /** b with ds stored from at on, and on from the start when b ends. */
  ghost function Stored(b: seq<Byte>, at: nat, ds: seq<Byte>): (r: seq<Byte>)
    requires at < |b| && |ds| <= |b|
    ensures |r| == |b|
  {
    seq(|b|, k requires 0 <= k < |b| =>
      if at <= k < at + |ds| then ds[k - at] else if k + |b| < at + |ds| then ds[k + |b| - at] else b[k])
  }

  /** Storing behind the n bytes in flight appends to them. */
  lemma RingWrite(b: seq<Byte>, p: nat, n: nat, ds: seq<Byte>)
    requires 0 < |b| && n + |ds| <= |b|
    ensures |Stored(b, (p + n) % |b|, ds)| == |b|
    ensures Ring(Stored(b, (p + n) % |b|, ds), p, n + |ds|) == Ring(b, p, n) + ds
  {
    var b2 := Stored(b, (p + n) % |b|, ds);
    if n < |b| {
      forall k: nat | k < n + |ds|
        ensures Ring(b2, p, n + |ds|)[k] == (Ring(b, p, n) + ds)[k]
      {
        StoredAt(b, p, n, ds, k);
      }
    }
  }

  lemma StoredAt(b: seq<Byte>, p: nat, n: nat, ds: seq<Byte>, k: nat)
    requires n < |b| && n + |ds| <= |b| && k < n + |ds|
    ensures Slot(p, k, |b|) < |Stored(b, (p + n) % |b|, ds)| == |b|
    ensures Stored(b, (p + n) % |b|, ds)[Slot(p, k, |b|)] == if k < n then b[Slot(p, k, |b|)] else ds[k - n]
  {
    SlotIs(p, n, |b|);
    SlotIs(p, k, |b|);
  }

  // ---- The pipe ----

  class PipeData {
    const buffer: array<Byte>
    var readPos: nat
    var writePos: nat

    ghost predicate Valid()
      reads this
    {
      buffer.Length > 0 && readPos <= writePos <= readPos + buffer.Length
    }

    /** The bytes written and not yet read. */
    ghost function Contents(): seq<Byte>
      requires Valid()
      reads this, buffer
    {
      Ring(buffer[..], readPos, writePos - readPos)
    }

    constructor (size: nat)
      requires size > 0
      ensures Valid() && Contents() == [] && buffer.Length == size && fresh(buffer)
    {
      buffer := new Byte[size](_ => 0);
      readPos, writePos := 0, 0;
    }

    /** The body of pipe_read once the pipe is not empty. */
    method ReadPass(buf: array<Byte>, nbyte: nat) returns (bytes: nat)
      requires Valid() && readPos < writePos && buf != buffer && nbyte <= buf.Length
      modifies `readPos, buf
      ensures Valid() && bytes == Min(|old(Contents())|, nbyte)
      ensures Contents() == old(Contents())[bytes..]
      ensures buf[..] == old(Contents())[..bytes] + old(buf[bytes..])
    {
      hide Ring, Wrapped;
      bytes := writePos - readPos;
      if bytes > nbyte {
        bytes := nbyte;
      }
      RingRead(buffer[..], readPos, writePos - readPos, bytes);
      RingTail(buffer[..], readPos, writePos - readPos, bytes);
      CopyOut(buf, readPos % buffer.Length, bytes);
      readPos := readPos + bytes;
    }

    /** The copy of pipe_read, in two pieces where the ring wraps. */
    method CopyOut(buf: array<Byte>, bufPos: nat, bytes: nat)
      requires bufPos < buffer.Length && bytes <= buffer.Length && bytes <= buf.Length && buf != buffer
      modifies buf
      ensures buf[..] == Wrapped(buffer[..], bufPos, bytes) + old(buf[bytes..])
    {
      var n := buffer.Length - bufPos;
      if n > bytes {
        n := bytes;
      }
      Copy(buf, 0, buffer, bufPos, n);
      if bytes - n != 0 {
        Copy(buf, n, buffer, 0, bytes - n);
      }
    }

    /** One iteration of pipe_write, the pipe not being full; the next byte to write is
        buf[written]. */
    method WritePass(buf: array<Byte>, written: nat, nbyte: nat) returns (bytes: nat)
      requires Valid() && writePos < readPos + buffer.Length && buf != buffer && written + nbyte <= buf.Length
      modifies `writePos, buffer
      ensures Valid() && bytes == Min(buffer.Length - |old(Contents())|, nbyte)
      ensures Contents() == old(Contents()) + buf[written..written + bytes]
    {
      hide Ring, Stored;
      bytes := buffer.Length - (writePos - readPos);
      if bytes > nbyte {
        bytes := nbyte;
      }
      RingWrite(buffer[..], readPos, writePos - readPos, buf[written..written + bytes]);
      CopyIn(buf, written, writePos % buffer.Length, bytes);
      writePos := writePos + bytes;
    }

    /** The copy of pipe_write, in two pieces where the ring wraps. */
    method CopyIn(buf: array<Byte>, written: nat, bufPos: nat, bytes: nat)
      requires bufPos < buffer.Length && bytes <= buffer.Length && written + bytes <= buf.Length && buf != buffer
      modifies buffer
      ensures buffer[..] == Stored(old(buffer[..]), bufPos, buf[written..written + bytes])
    {
      var n := buffer.Length - bufPos;
      if n > bytes {
        n := bytes;
      }
      Copy(buffer, bufPos, buf, written, n);
      if bytes - n != 0 {
        Copy(buffer, 0, buf, written + n, bytes - n);
      }
    }
  }
}
