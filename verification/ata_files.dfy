/** Reading and writing an ATA drive at any byte offset (kernel/fs/ata_fs.c), over a drive that
    knows only whole blocks and does not fail. */
module AtaFiles {
  import opened CStrings
  import opened PhysicalMemory

  const MAX_BLOCKS: nat := 0x1000_0000 // block numbers have 28 bits

  type Block = b: seq<Byte> | |b| == 512 witness seq(512, _ => 0)

  /** The drive as a flat array of bytes. */
  ghost function ByteOn(blocks: seq<Block>, a: nat): Byte
    requires a < 512 * |blocks|
  {
    blocks[a / 512][a % 512]
  }

  ghost function Slice(blocks: seq<Block>, offset: nat, n: nat): (r: seq<Byte>)
    requires offset + n <= 512 * |blocks|
    ensures |r| == n
  {
    seq<Byte>(n, i requires 0 <= i < n => ByteOn(blocks, offset + i))
  }

  /** r is blocks with data stored from offset on, and nothing else changed. */
  ghost predicate Overlaid(blocks: seq<Block>, r: seq<Block>, offset: nat, data: seq<Byte>) {
    && |r| == |blocks|
    && forall a: nat :: a < 512 * |blocks| ==>
         ByteOn(r, a) == if offset <= a < offset + |data| then data[a - offset] else ByteOn(blocks, a)
  }

  /** What was written is what is read back, at any alignment, and what was not stays. */
  lemma ReadsBack(blocks: seq<Block>, r: seq<Block>, offset: nat, data: seq<Byte>, at: nat, n: nat)
    requires Overlaid(blocks, r, offset, data) && offset + |data| <= 512 * |blocks| && at + n <= 512 * |blocks|
    ensures Slice(r, offset, |data|) == data
    ensures at + n <= offset || offset + |data| <= at ==> Slice(r, at, n) == Slice(blocks, at, n)
  {
    forall i: nat | i < |data|
      ensures ByteOn(r, offset + i) == data[i]
    {
      assert offset + i < 512 * |blocks|;
    }
  }

  /** One write followed by an adjacent one is one longer write. */
  lemma OverlaidTwice(b0: seq<Block>, b1: seq<Block>, b2: seq<Block>, offset: nat, d: seq<Byte>, e: seq<Byte>)
    requires Overlaid(b0, b1, offset, d) && Overlaid(b1, b2, offset + |d|, e)
    ensures Overlaid(b0, b2, offset, d + e)
  {
  }

  /** Replacing one block, of which only the bytes from at on differ. */
  lemma BlockOverlaid(blocks: seq<Block>, k: nat, b: Block, at: nat, d: seq<Byte>)
    requires k < |blocks| && at + |d| <= 512 && b == blocks[k][..at] + d + blocks[k][at + |d|..]
    ensures Overlaid(blocks, blocks[k := b], 512 * k + at, d)
  {
    forall a: nat | a < 512 * |blocks|
      ensures ByteOn(blocks[k := b], a)
           == if 512 * k + at <= a < 512 * k + at + |d| then d[a - (512 * k + at)] else ByteOn(blocks, a)
    {
      if a / 512 == k {
        assert a == 512 * k + a % 512;
      }
    }
  }

  lemma SliceGrows(blocks: seq<Block>, start: nat, count: nat, block: nat, bloff: nat, len: nat)
    requires block < |blocks| && bloff + len <= 512 && start + count == 512 * block + bloff
    ensures Slice(blocks, start, count + len) == Slice(blocks, start, count) + blocks[block][bloff..bloff + len]
  {
    var l, r := Slice(blocks, start, count + len), Slice(blocks, start, count) + blocks[block][bloff..bloff + len];
    forall i | 0 <= i < count + len
      ensures l[i] == r[i]
    {
      if i >= count {
        ByteInBlock(blocks, block, bloff + i - count);
        assert start + i == 512 * block + (bloff + i - count);
      }
    }
  }

  lemma AppendPiece(got: seq<Byte>, init: seq<Byte>, piece: seq<Byte>)
    requires |got| + |piece| <= |init|
    ensures var b := got + init[|got|..];
      b[..|got|] + piece + b[|got| + |piece|..] == (got + piece) + init[|got| + |piece|..]
  {
  }

  lemma ByteInBlock(blocks: seq<Block>, block: nat, o: nat)
    requires block < |blocks| && o < 512
    ensures 512 * block + o < 512 * |blocks| && ByteOn(blocks, 512 * block + o) == blocks[block][o]
  {
  }

  lemma OverlaidNone(blocks: seq<Block>, start: nat)
    ensures Overlaid(blocks, blocks, start, [])
  {
  }

  /** A piece written within one block, behind the count bytes written before it. */
  lemma PieceOverlaid(b0: seq<Block>, was: seq<Block>, now: seq<Block>, start: nat, data: seq<Byte>,
                      count: nat, block: nat, bloff: nat, len: nat)
    requires count + len <= |data| && Overlaid(b0, was, start, data[..count])
    requires block < |was| == |now| && bloff + len <= 512 && start + count == 512 * block + bloff
    requires now[block] == was[block][..bloff] + data[count..count + len] + was[block][bloff + len..]
    requires now == was[block := now[block]]
    ensures Overlaid(b0, now, start, data[..count + len])
  {
    hide Overlaid;
    BlockOverlaid(was, block, now[block], bloff, data[count..count + len]);
    OverlaidTwice(b0, was, now, start, data[..count], data[count..count + len]);
    assert data[..count] + data[count..count + len] == data[..count + len];
  }

  class Drive {
    const present: bool
    var blocks: seq<Block>

    constructor (present: bool, blocks: seq<Block>)
      ensures this.present == present && this.blocks == blocks
    {
      this.present := present;
      this.blocks := blocks;
    }

    /** ata_read_block */
    method ReadBlock(lba: nat, buf: array<Byte>, at: nat)
      requires lba < |blocks| <= MAX_BLOCKS && at + 512 <= buf.Length
      modifies buf
      ensures forall k :: 0 <= k < buf.Length ==>
        buf[k] == if at <= k < at + 512 then blocks[lba][k - at] else old(buf[k])
    {
      forall i | 0 <= i < 512 {
        buf[at + i] := blocks[lba % MAX_BLOCKS][i];
      }
    }

    /** ata_write_block */
    method WriteBlock(lba: nat, buf: array<Byte>, at: nat)
      requires lba < |blocks| <= MAX_BLOCKS && at + 512 <= buf.Length
      modifies `blocks
      ensures blocks == old(blocks)[lba := buf[at..at + 512]]
    {
      blocks := blocks[lba % MAX_BLOCKS := buf[at..at + 512]];
    }

    /** One iteration of ata_read, within one block. */
    method ReadPiece(buffer: array<Byte>, count: nat, blkBuf: array<Byte>, block: nat, bloff: nat, len: nat)
      requires block < |blocks| <= MAX_BLOCKS && bloff + len <= 512 && count + len <= buffer.Length
      requires blkBuf.Length == 512 && blkBuf != buffer
      modifies buffer, blkBuf
      ensures buffer[..] ==
        old(buffer[..])[..count] + blocks[block][bloff..bloff + len] + old(buffer[..])[count + len..]
    {
      if len == 512 {
        ReadBlock(block, buffer, count);
      } else {
        ReadBlock(block, blkBuf, 0);
        Copy(buffer, count, blkBuf, bloff, len);
      }
    }

    /** One iteration of ata_write, within one block. */
    method WritePiece(buffer: array<Byte>, count: nat, blkBuf: array<Byte>, block: nat, bloff: nat, len: nat)
      requires block < |blocks| <= MAX_BLOCKS && bloff + len <= 512 && count + len <= buffer.Length
      requires blkBuf.Length == 512 && blkBuf != buffer
      modifies `blocks, blkBuf
      ensures |blocks| == |old(blocks)|
      ensures blocks[block] ==
        old(blocks)[block][..bloff] + buffer[count..count + len] + old(blocks)[block][bloff + len..]
      ensures blocks == old(blocks)[block := blocks[block]]
    {
      if len == 512 {
        WriteBlock(block, buffer, count);
      } else {
        ReadBlock(block, blkBuf, 0);
        Copy(blkBuf, bloff, buffer, count, len);
        WriteBlock(block, blkBuf, 0);
      }
    }

    /** ata_read */
    method Read(buffer: array<Byte>, nbyte: nat, start: nat) returns (count: nat)
      requires start + nbyte <= 512 * |blocks| <= 512 * MAX_BLOCKS && nbyte <= buffer.Length
      modifies buffer
      ensures !present ==> count == 0 && buffer[..] == old(buffer[..])
      ensures present ==> count == nbyte && buffer[..] == Slice(blocks, start, nbyte) + old(buffer[nbyte..])
    {
      hide Slice;
      if !present {
        return 0;
      }
      ghost var init := buffer[..];
      var blkBuf := new Byte[512](_ => 0);
      var offset: nat := start;
      count := 0;
      while count < nbyte
        invariant count <= nbyte && offset == start + count
        invariant buffer[..] == Slice(blocks, start, count) + init[count..]
      {
        var block: nat, bloff: nat := offset / 512, offset % 512;
        var len := if nbyte - count > 512 - bloff then 512 - bloff else nbyte - count;
        SliceGrows(blocks, start, count, block, bloff, len);
        AppendPiece(Slice(blocks, start, count), init, blocks[block][bloff..bloff + len]);
        ReadPiece(buffer, count, blkBuf, block, bloff, len);
        count := count + len;
        offset := offset + len;
      }
    }

    /** ata_write */
    method Write(buffer: array<Byte>, nbyte: nat, start: nat) returns (count: nat)
      requires start + nbyte <= 512 * |blocks| <= 512 * MAX_BLOCKS && nbyte <= buffer.Length
      modifies this
      ensures !present ==> count == 0 && blocks == old(blocks)
      ensures present ==> count == nbyte && Overlaid(old(blocks), blocks, start, buffer[..nbyte])
    {
      hide Overlaid;
      OverlaidNone(blocks, start);
      if !present {
        return 0;
      }
      var blkBuf := new Byte[512](_ => 0);
      var offset: nat := start;
      count := 0;
      while count < nbyte
        invariant count <= nbyte && offset == start + count && |blocks| == |old(blocks)|
        invariant Overlaid(old(blocks), blocks, start, buffer[..count])
      {
        var block: nat, bloff: nat := offset / 512, offset % 512;
        var len := if nbyte - count > 512 - bloff then 512 - bloff else nbyte - count;
        ghost var was := blocks;
        WritePiece(buffer, count, blkBuf, block, bloff, len);
        PieceOverlaid(old(blocks), was, blocks, start, buffer[..], count, block, bloff, len);
        count := count + len;
        offset := offset + len;
      }
    }
  }
}
