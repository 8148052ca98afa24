/** Raw memory blocks, the windows over them, and the file descriptors they are filled from: rpc/buffer.h, rpc/buffer.cc. */
module Chunks {
  import opened Bytes

  /** 8kb minimum block size. */
  const MIN_SIZE: nat := 8192

  function Min(a: nat, b: nat): nat { if a < b then a else b }

  function Max(a: nat, b: nat): nat { if a < b then b else a }

  /**
   A block of memory that several windows may share.  The block owns its memory outright, so the
   memory is a field.

   `frozen` records how far the block has been handed out: every window on the block ends at or
   below it, and the bytes below it are never overwritten.  A window may only be extended when it
   ends exactly at `frozen`; that is the single-writer rule of Marshal::read_from_marshal.
   */
  class RawBytes {
    const size: nat

    /** The family of buffers that may share this block. */
    ghost const arena: nat

    var mem: seq<byte>
    ghost var frozen: nat

    ghost predicate Valid()
      reads this
    {
      frozen <= size == |mem|
    }

    constructor Reserve(size: nat, ghost arena: nat)
      ensures Valid() && this.arena == arena && this.size == Max(size, MIN_SIZE) && frozen == 0
    {
      this.size, this.arena := Max(size, MIN_SIZE), arena;
      mem := seq(Max(size, MIN_SIZE), _ => 0);
      frozen := 0;
    }

    /** memcpy(ptr + at, p, |p|). */
    method Put(at: nat, p: seq<byte>)
      requires Valid() && at + |p| <= size
      modifies this`mem
      ensures Valid()
      ensures mem == old(mem)[..at] + p + old(mem)[at + |p|..]
    {
      mem := mem[..at] + p + mem[at + |p|..];
    }
  }

  /** The block was at most appended to: nothing that had been handed out has changed. */
  twostate predicate Grows(b: RawBytes)
    reads b
  {
    b.Valid() && old(b.frozen) <= b.frozen && |old(b.mem)| == |b.mem| &&
    forall k :: 0 <= k < old(b.frozen) ==> b.mem[k] == old(b.mem)[k]
  }

  /** The memory of a block is what it was, but for the bytes of `bm`. */
  ghost predicate SameBut(mem: seq<byte>, was: seq<byte>, block: RawBytes, bm: seq<Slot>)
  {
    |mem| == |was| && forall k :: 0 <= k < |mem| && Slot(block, k) !in bm ==> mem[k] == was[k]
  }

  /** Of the blocks behind these bytes, whose memory was `was`, nothing but these bytes has changed. */
  ghost predicate KeptBut(bm: seq<Slot>, was: seq<seq<byte>>)
    reads set i | 0 <= i < |bm| :: bm[i].block
  {
    |was| == |bm| && forall i :: 0 <= i < |bm| ==> SameBut(bm[i].block.mem, was[i], bm[i].block, bm)
  }

  /** An open socket: the bytes it will deliver, and the bytes it has taken. */
  class Fd {
    var incoming: seq<byte>
    var sent: seq<byte>

    /** What the calls of ::read and ::write have returned so far. */
    ghost var readLog: seq<int>
    ghost var writeLog: seq<int>

    constructor (incoming: seq<byte>)
      ensures this.incoming == incoming && sent == [] && readLog == [] && writeLog == []
    {
      this.incoming, sent := incoming, [];
      readLog, writeLog := [], [];
    }

    /** It was read until there was nothing more: the last call of ::read, one of those made here, gave no bytes. */
    twostate predicate Drained()
      reads this`readLog
    {
      |readLog| > |old(readLog)| && readLog[|readLog| - 1] < 1
    }

    /** It was written until it took nothing more. */
    twostate predicate Clogged()
      reads this`writeLog
    {
      |writeLog| > |old(writeLog)| && writeLog[|writeLog| - 1] < 1
    }

    /** The last attempt to write was turned down: the poller will tell when there is room again. */
    ghost predicate Full()
      reads this`writeLog
    {
      writeLog != [] && writeLog[|writeLog| - 1] < 1
    }

    /** ::read: delivers any number of bytes up to `max`, or fails with a result below one. */
    method Read(max: nat) returns (r: int, got: seq<byte>)
      modifies this`incoming, this`readLog
      ensures r <= max && |got| == (if r > 0 then r else 0)
      ensures old(incoming) == got + incoming && readLog == old(readLog) + [r]
    {
      r :| -1 <= r && r <= max && r <= |incoming|;
      got := if r > 0 then incoming[..r] else [];
      incoming := incoming[|got|..];
      readLog := readLog + [r];
    }

    /** ::write: takes any prefix of `p`, or fails with a result below one. */
    method Write(p: seq<byte>) returns (r: int)
      modifies this`sent, this`writeLog
      ensures r <= |p| && writeLog == old(writeLog) + [r]
      ensures sent == old(sent) + (if r > 0 then p[..r] else [])
    {
      r :| -1 <= r <= |p|;
      if r > 0 {
        sent := sent + p[..r];
      }
      writeLog := writeLog + [r];
    }
  }

  /** One byte of a block, as remembered by a bookmark. */
  datatype Slot = Slot(block: RawBytes, idx: nat)

  /** The window [readIdx, writeIdx) over a block, and the link to the next window of its chain. */
  class Chunk {
    const data: RawBytes
    var readIdx: nat
    var writeIdx: nat
    var next: Chunk?

    /** The chunk's number within its chain. */
    ghost var rank: int

    ghost predicate Valid()
      reads this, data
    {
      data.Valid() && readIdx <= writeIdx <= data.frozen
    }

    /** The unread bytes. */
    ghost function Window(): seq<byte>
      requires Valid()
      reads this, data
    {
      data.mem[readIdx..writeIdx]
    }

    /** The block may have changed, but not where this window looks. */
    twostate predicate Aside()
      reads this, data
    {
      data.Valid() && old(data.frozen) <= data.frozen && |old(data.mem)| == |data.mem| &&
      forall k :: readIdx <= k < writeIdx && k < |data.mem| ==> data.mem[k] == old(data.mem)[k]
    }

    /** Only the window that ends where the block is frozen may be extended. */
    ghost predicate MayExtend()
      reads this, data
    {
      writeIdx == data.frozen
    }

    /** `chunk()`. */
    constructor Empty(ghost arena: nat)
      ensures Valid() && MayExtend() && Window() == [] && readIdx == 0 && next == null
      ensures fresh(data) && data.size == MIN_SIZE && data.arena == arena
    {
      data := new RawBytes.Reserve(0, arena);
      readIdx, writeIdx, next := 0, 0, null;
    }

    /** `chunk(p, n)`. */
    constructor Filled(p: seq<byte>, ghost arena: nat)
      ensures Valid() && MayExtend() && Window() == p && readIdx == 0 && next == null
      ensures fresh(data) && data.size == Max(|p|, MIN_SIZE) && data.arena == arena
    {
      data := new RawBytes.Reserve(|p|, arena);
      readIdx, writeIdx, next := 0, |p|, null;
      new;
      data.Put(0, p);
      data.frozen := |p|;
    }

    /** `chunk(data, rd_idx, wr_idx)`: a second window on an existing block. */
    constructor Shared(dt: RawBytes, rdIdx: nat, wrIdx: nat)
      ensures data == dt && readIdx == rdIdx && writeIdx == wrIdx && next == null
    {
      data, readIdx, writeIdx, next := dt, rdIdx, wrIdx, null;
    }

    method SharedCopy() returns (c: Chunk)
      requires Valid()
      ensures fresh(c) && c.Valid() && c.next == null
      ensures c.data == data && c.readIdx == readIdx && c.writeIdx == writeIdx
    {
      c := new Chunk.Shared(data, readIdx, writeIdx);
    }

    function ContentSize(): nat
      requires readIdx <= writeIdx
      reads this
    {
      writeIdx - readIdx
    }

    predicate FullyWritten()
      reads this
    {
      writeIdx == data.size
    }

    predicate FullyRead()
      reads this
    {
      readIdx == data.size
    }

    /** Reserves one byte whose value is filled in later. */
    method SetBookmark() returns (slot: Slot)
      requires Valid() && MayExtend() && !FullyWritten()
      modifies this`writeIdx, data`frozen
      ensures Valid() && MayExtend() && writeIdx == old(writeIdx) + 1
      ensures slot == Slot(data, old(writeIdx))
      ensures Window() == old(Window()) + [data.mem[old(writeIdx)]]
    {
      slot := Slot(data, writeIdx);
      writeIdx := writeIdx + 1;
      data.frozen := writeIdx;
    }

    method Write(p: seq<byte>) returns (n: nat)
      requires Valid() && MayExtend()
      modifies this`writeIdx, data`frozen, data`mem
      ensures n == Min(|p|, data.size - old(writeIdx)) && writeIdx == old(writeIdx) + n
      ensures Valid() && MayExtend()
      ensures Window() == old(Window()) + p[..n]
      ensures Grows(data)
    {
      n := Min(|p|, data.size - writeIdx);
      if n > 0 {
        data.Put(writeIdx, p[..n]);
      }
      writeIdx := writeIdx + n;
      data.frozen := writeIdx;
    }

    method Peek(n: nat) returns (got: seq<byte>)
      requires Valid()
      ensures got == Window()[..Min(n, |Window()|)]
    {
      var k := Min(n, writeIdx - readIdx);
      got := data.mem[readIdx..readIdx + k];
    }

    method Read(n: nat) returns (got: seq<byte>)
      requires Valid()
      modifies this`readIdx
      ensures Valid() && readIdx == old(readIdx) + |got|
      ensures got == old(Window())[..Min(n, |old(Window())|)] && Window() == old(Window())[|got|..]
    {
      var k := Min(n, writeIdx - readIdx);
      got := data.mem[readIdx..readIdx + k];
      assert got == Window()[..k];
      readIdx := readIdx + k;
    }

    method Discard(n: nat) returns (k: nat)
      requires Valid()
      modifies this`readIdx
      ensures Valid() && readIdx == old(readIdx) + k
      ensures k == Min(n, |old(Window())|) && Window() == old(Window())[k..]
    {
      k := Min(n, writeIdx - readIdx);
      readIdx := readIdx + k;
    }

    method WriteToFd(fd: Fd) returns (cnt: int)
      requires Valid()
      modifies this`readIdx, fd`sent, fd`writeLog
      ensures Valid()
      ensures cnt <= |old(Window())| && fd.writeLog == old(fd.writeLog) + [cnt]
      ensures var k: nat := if cnt > 0 then cnt else 0;
        fd.sent == old(fd.sent) + old(Window())[..k] && Window() == old(Window())[k..]
    {
      cnt := fd.Write(data.mem[readIdx..writeIdx]);
      if cnt > 0 {
        readIdx := readIdx + cnt;
      }
    }

    method ReadFromFd(fd: Fd) returns (cnt: int, ghost got: seq<byte>)
      requires Valid() && MayExtend()
      modifies this`writeIdx, data`frozen, data`mem, fd`incoming, fd`readLog
      ensures Valid() && MayExtend() && writeIdx == old(writeIdx) + |got|
      ensures |got| == (if cnt > 0 then cnt else 0) && old(fd.incoming) == got + fd.incoming
      ensures Window() == old(Window()) + got
      ensures Grows(data)
      ensures old(!FullyWritten()) ==> fd.readLog == old(fd.readLog) + [cnt]
    {
      cnt, got := 0, [];
      if writeIdx < data.size {
        var bytes;
        cnt, bytes := fd.Read(data.size - writeIdx);
        got := bytes;
        if cnt > 0 {
          data.Put(writeIdx, bytes);
          writeIdx := writeIdx + cnt;
          data.frozen := writeIdx;
        }
      }
    }
  }
}
