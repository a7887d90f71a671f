/**
 The disk cursor: byte-level reads and writes of any length over whole-block transfers of 512 bytes.
 The device is a flat array of bytes; it may refuse any transfer and refuses all beyond its end.
 */
module Disks {

  import opened Options
  import opened Scripts
  import opened Streams

  const BLOCK_SIZE: nat := 512

  /** `content` with `bytes` written over it at `pos`. */
  ghost function Splice(content: seq<Byte>, pos: nat, bytes: seq<Byte>): (r: seq<Byte>)
    requires bytes == [] || pos + |bytes| <= |content|
    ensures |r| == |content|
  {
    if bytes == [] then content else content[..pos] + bytes + content[pos + |bytes|..]
  }

  /** Writing `bytes` at `pos` turned `before` into `after`. */
  ghost predicate Wrote(before: seq<Byte>, after: seq<Byte>, pos: nat, bytes: seq<Byte>) {
    (bytes == [] || pos + |bytes| <= |before|) && after == Splice(before, pos, bytes)
  }

  lemma SpliceTwice(content: seq<Byte>, pos: nat, a: seq<Byte>, b: seq<Byte>)
    requires a + b == [] || pos + |a| + |b| <= |content|
    ensures Splice(Splice(content, pos, a), pos + |a|, b) == Splice(content, pos, a + b)
  {
  }

  /** Writing the first m bytes and then the next n is writing the first m + n. */
  lemma WroteMore(c0: seq<Byte>, c1: seq<Byte>, c2: seq<Byte>, pos: nat, bytes: seq<Byte>, m: nat, n: nat)
    requires m + n <= |bytes| && Wrote(c0, c1, pos, bytes[..m]) && Wrote(c1, c2, pos + m, bytes[m..][..n])
    ensures Wrote(c0, c2, pos, bytes[..m + n])
  {
    TakeMore(bytes, m, n);
    SpliceTwice(c0, pos, bytes[..m], bytes[m..][..n]);
  }

  /** A device holds whole blocks, so a block is in range as soon as one of its bytes is. */
  lemma WholeBlocks(size: nat, id: nat, offset: nat)
    requires size % BLOCK_SIZE == 0 && offset < BLOCK_SIZE
    ensures (id + 1) * BLOCK_SIZE <= size <==> id * BLOCK_SIZE + offset < size
  {
  }

  /** A splice puts its bytes where they belong and changes no other byte. */
  lemma SpliceAt(content: seq<Byte>, pos: nat, bytes: seq<Byte>, i: nat)
    requires pos + |bytes| <= |content| && i < |content|
    ensures Splice(content, pos, bytes)[i] == if pos <= i < pos + |bytes| then bytes[i - pos] else content[i]
  {
  }

  /** `len` bytes at `pos` lie inside the device. */
  ghost predicate Inside(pos: nat, len: nat, size: nat) {
    len == 0 || pos + len <= size
  }

  ghost function AtMost(x: int, y: int): int {
    if x < y then x else y
  }

  function InBounds(pos: int): Option<nat> {
    if 0 <= pos <= U64_MAX then Some(pos) else None
  }

  class BlockDevice {
    var content: seq<Byte>
    /** Which of the coming transfers fail. */
    var faults: seq<bool>

    ghost predicate Valid()
      reads this
    {
      |content| % BLOCK_SIZE == 0 && |content| <= U64_MAX
    }

    constructor (content: seq<Byte>, faults: seq<bool>)
      requires |content| % BLOCK_SIZE == 0 && |content| <= U64_MAX
      ensures Valid() && this.content == content && this.faults == faults
    {
      this.content, this.faults := content, faults;
    }

    predicate InRange(id: nat)
      reads this
    {
      (id + 1) * BLOCK_SIZE <= |content|
    }

    method Fault() returns (bad: bool)
      modifies this`faults
      ensures Used(old(faults), faults) && (bad <==> !Clean(old(faults), faults))
    {
      bad, faults := Fails(faults), Later(faults);
    }

    method ReadBlock(id: nat) returns (r: Option<seq<Byte>>)
      requires Valid()
      modifies this`faults
      ensures r.Some? ==> InRange(id) && r.value == content[id * BLOCK_SIZE..(id + 1) * BLOCK_SIZE]
      ensures Used(old(faults), faults) && (r.Some? <==> InRange(id) && Clean(old(faults), faults))
    {
      var bad := Fault();
      if bad || !InRange(id) { return None; }
      return Some(content[id * BLOCK_SIZE..(id + 1) * BLOCK_SIZE]);
    }

    method WriteBlock(id: nat, block: seq<Byte>) returns (r: Option<()>)
      requires Valid() && |block| == BLOCK_SIZE
      modifies this
      ensures Valid()
      ensures r.Some? ==> old(InRange(id)) && Wrote(old(content), content, id * BLOCK_SIZE, block)
      ensures r.None? ==> content == old(content)
      ensures Used(old(faults), faults) && (r.Some? <==> old(InRange(id)) && Clean(old(faults), faults))
    {
      var bad := Fault();
      if bad || !InRange(id) { return None; }
      content := content[..id * BLOCK_SIZE] + block + content[(id + 1) * BLOCK_SIZE..];
      return Some(());
    }
  }

  /** Writing back a block with part of it replaced is writing just that part. */
  lemma PartialBlock(before: seq<Byte>, after: seq<Byte>, at: nat, start: nat, bytes: seq<Byte>)
    requires start + |bytes| <= BLOCK_SIZE && at + BLOCK_SIZE <= |before|
    requires Wrote(before, after, at, Splice(before[at..at + BLOCK_SIZE], start, bytes))
    ensures Wrote(before, after, at + start, bytes)
  {
    var data := before[at..at + BLOCK_SIZE];
    var expected := Splice(before, at + start, bytes);
    forall i | 0 <= i < |before| ensures after[i] == expected[i] {
      SpliceAt(before, at, Splice(data, start, bytes), i);
      SpliceAt(before, at + start, bytes, i);
      if at <= i < at + BLOCK_SIZE { SpliceAt(data, start, bytes, i - at); }
    }
  }

  lemma PartOfBlock(content: seq<Byte>, at: nat, start: nat, count: nat)
    requires start + count <= BLOCK_SIZE && at + BLOCK_SIZE <= |content|
    ensures HoldsAt(content, at + start, content[at..at + BLOCK_SIZE][start..start + count])
  {
    var block, part := content[at..at + BLOCK_SIZE], content[at + start..at + start + count];
    forall i | 0 <= i < count ensures block[start..start + count][i] == part[i] { assert block[start + i] == part[i]; }
    assert block[start..start + count] == part;
  }

  class Disk {
    const dev: BlockDevice
    var blockId: nat
    var offset: nat

    ghost predicate Valid()
      reads this, dev
    {
      dev.Valid() && offset < BLOCK_SIZE && Position() <= U64_MAX
    }

    constructor (dev: BlockDevice)
      requires dev.Valid()
      ensures Valid() && this.dev == dev && Position() == 0
    {
      this.dev, blockId, offset := dev, 0, 0;
    }

    function Position(): nat
      reads this
    {
      blockId * BLOCK_SIZE + offset
    }

    method SetPosition(pos: nat)
      requires dev.Valid() && pos <= U64_MAX
      modifies this
      ensures Valid() && Position() == pos
    {
      blockId := pos / BLOCK_SIZE;
      offset := pos % BLOCK_SIZE;
    }

    method Advance(count: nat)
      requires offset + count <= BLOCK_SIZE
      modifies this
      ensures offset < BLOCK_SIZE && Position() == old(Position()) + count
    {
      offset := offset + count;
      if offset >= BLOCK_SIZE {
        blockId := blockId + 1;
        offset := offset - BLOCK_SIZE;
      }
    }

    /** How many bytes one transfer moves. */
    function Count(len: nat): nat
      requires offset < BLOCK_SIZE
      reads this
    {
      if len < BLOCK_SIZE - offset then len else BLOCK_SIZE - offset
    }

    /** The transfer of one read: a whole block, or part of one. */
    method TransferIn(count: nat) returns (r: Option<seq<Byte>>)
      requires Valid() && offset + count <= BLOCK_SIZE
      modifies dev`faults
      ensures r.Some? ==> |r.value| == count && HoldsAt(dev.content, Position(), r.value)
      ensures Used(old(dev.faults), dev.faults)
      ensures r.Some? <==> Position() < |dev.content| && Clean(old(dev.faults), dev.faults)
    {
      WholeBlocks(|dev.content|, blockId, offset);
      if offset == 0 && count >= BLOCK_SIZE {
        r := dev.ReadBlock(blockId);
      } else {
        r := ReadInside(offset, count);
      }
    }

    /** Reads within one block, into `buf` from index `from` on. */
    method ReadOne(buf: array<Byte>, from: nat) returns (r: Option<nat>)
      requires Valid() && from < buf.Length
      modifies this, dev`faults, buf
      ensures Valid() && (r.None? ==> Position() == old(Position()) && buf[..from] == old(buf[..from]))
      ensures r.Some? ==> r.value == AtMost(buf.Length - from, 512 - old(offset)) > 0 && Position() == old(Position()) + r.value
      ensures r.Some? ==> buf[..from + r.value] == old(buf[..from]) + buf[from..from + r.value]
      ensures r.Some? ==> HoldsAt(dev.content, old(Position()), buf[from..from + r.value])
      ensures Used(old(dev.faults), dev.faults)
      ensures r.Some? <==> old(Position()) < |dev.content| && Clean(old(dev.faults), dev.faults)
    {
      var count := Count(buf.Length - from);
      var bytes := TransferIn(count);
      if bytes.None? { return None; }
      Advance(count);
      CopyTo(buf, from, bytes.value);
      return Some(count);
    }

    /** Read the block and take part of it. */
    method ReadInside(start: nat, count: nat) returns (r: Option<seq<Byte>>)
      requires Valid() && start + count <= BLOCK_SIZE
      modifies dev`faults
      ensures r.Some? ==> dev.InRange(blockId) && |r.value| == count
      ensures r.Some? ==> HoldsAt(dev.content, blockId * BLOCK_SIZE + start, r.value)
      ensures Used(old(dev.faults), dev.faults)
      ensures r.Some? <==> dev.InRange(blockId) && Clean(old(dev.faults), dev.faults)
    {
      var data := dev.ReadBlock(blockId);
      if data.None? { return None; }
      PartOfBlock(dev.content, blockId * BLOCK_SIZE, start, count);
      return Some(data.value[start..start + count]);
    }

    /** The transfer of one write: a whole block, or part of one. */
    method TransferOut(bytes: seq<Byte>) returns (r: Option<()>)
      requires Valid() && bytes != [] && offset + |bytes| <= BLOCK_SIZE
      modifies dev
      ensures dev.Valid() && |dev.content| == |old(dev.content)| && (r.None? ==> dev.content == old(dev.content))
      ensures r.Some? ==> Wrote(old(dev.content), dev.content, Position(), bytes)
      ensures Used(old(dev.faults), dev.faults)
      ensures r.Some? <==> Position() < |old(dev.content)| && Clean(old(dev.faults), dev.faults)
    {
      WholeBlocks(|dev.content|, blockId, offset);
      if offset == 0 && |bytes| >= BLOCK_SIZE {
        r := dev.WriteBlock(blockId, bytes);
      } else {
        r := WriteInside(offset, bytes);
      }
    }

    /** Writes within one block. */
    method WriteOne(buf: seq<Byte>) returns (r: Option<nat>)
      requires Valid() && buf != []
      modifies this, dev
      ensures Valid()
      ensures r.None? ==> Position() == old(Position()) && dev.content == old(dev.content)
      ensures r.Some? ==> r.value == AtMost(|buf|, 512 - old(offset)) > 0 && Position() == old(Position()) + r.value
      ensures r.Some? ==> Wrote(old(dev.content), dev.content, old(Position()), buf[..r.value])
      ensures Used(old(dev.faults), dev.faults)
      ensures r.Some? <==> old(Position()) < |old(dev.content)| && Clean(old(dev.faults), dev.faults)
    {
      var count := Count(|buf|);
      var w := TransferOut(buf[..count]);
      if w.None? { return None; }
      Advance(count);
      return Some(count);
    }

    /** Read the block, replace part of it, write it back. */
    method WriteInside(start: nat, bytes: seq<Byte>) returns (r: Option<()>)
      requires Valid() && bytes != [] && start + |bytes| <= BLOCK_SIZE
      modifies dev
      ensures dev.Valid() && |dev.content| == |old(dev.content)|
      ensures r.None? ==> dev.content == old(dev.content)
      ensures r.Some? ==> old(dev.InRange(blockId)) && Wrote(old(dev.content), dev.content, blockId * BLOCK_SIZE + start, bytes)
      ensures Used(old(dev.faults), dev.faults)
      ensures r.Some? <==> old(dev.InRange(blockId)) && Clean(old(dev.faults), dev.faults)
    {
      var data := dev.ReadBlock(blockId);
      if data.None? { return None; }
      ghost var faults := dev.faults;
      var block := data.value[..start] + bytes + data.value[start + |bytes|..];
      r := dev.WriteBlock(blockId, block);
      CleanTwice(old(dev.faults), faults, dev.faults);
      if r.Some? { PartialBlock(old(dev.content), dev.content, blockId * BLOCK_SIZE, start, bytes); }
    }

    /** Reads one more transfer behind the `from` bytes already read since `start`. */
    method ReadMore(buf: array<Byte>, from: nat, ghost start: nat) returns (r: Option<nat>)
      requires Valid() && from < buf.Length && Position() == start + from && HoldsAt(dev.content, start, buf[..from])
      modifies this, dev`faults, buf
      ensures Valid() && (r.None? ==> Position() == start + from && HoldsAt(dev.content, start, buf[..from]))
      ensures r.Some? ==> from < r.value <= buf.Length && Position() == start + r.value
      ensures r.Some? ==> HoldsAt(dev.content, start, buf[..r.value])
      ensures Used(old(dev.faults), dev.faults)
      ensures r.Some? <==> start + from < |dev.content| && Clean(old(dev.faults), dev.faults)
    {
      ghost var before := buf[..from];
      var n := ReadOne(buf, from);
      if n.None? { return None; }
      HoldsMore(dev.content, start, before, buf[from..from + n.value]);
      return Some(from + n.value);
    }

    /** Reads the whole of `buf`; on failure, a prefix of it. */
    method Read(buf: array<Byte>) returns (r: Option<nat>)
      requires Valid()
      modifies this, dev`faults, buf
      ensures Valid() && old(Position()) <= Position() <= old(Position()) + buf.Length
      ensures HoldsAt(dev.content, old(Position()), buf[..Position() - old(Position())])
      ensures r.Some? ==> r.value == buf.Length && Position() == old(Position()) + buf.Length
      ensures Used(old(dev.faults), dev.faults)
      ensures r.Some? <==> Inside(old(Position()), buf.Length, |dev.content|) && Clean(old(dev.faults), dev.faults)
    {
      var readLen := 0;
      while readLen < buf.Length
        invariant Valid() && readLen <= buf.Length && Position() == old(Position()) + readLen
        invariant HoldsAt(dev.content, old(Position()), buf[..readLen])
        invariant Used(old(dev.faults), dev.faults) && Clean(old(dev.faults), dev.faults)
        invariant Inside(old(Position()), readLen, |dev.content|)
      {
        ghost var faults := dev.faults;
        var n := ReadMore(buf, readLen, old(Position()));
        CleanTwice(old(dev.faults), faults, dev.faults);
        if n.None? { return None; }
        readLen := n.value;
      }
      return Some(readLen);
    }

    /** Writes all of `buf`; on failure, a prefix of it.  No byte outside changes. */
    method Write(buf: seq<Byte>) returns (r: Option<nat>)
      requires Valid()
      modifies this, dev
      ensures Valid() && old(Position()) <= Position() <= old(Position()) + |buf|
      ensures Wrote(old(dev.content), dev.content, old(Position()), buf[..Position() - old(Position())])
      ensures r.Some? ==> r.value == |buf| && Position() == old(Position()) + |buf|
      ensures Used(old(dev.faults), dev.faults)
      ensures r.Some? <==> Inside(old(Position()), |buf|, |old(dev.content)|) && Clean(old(dev.faults), dev.faults)
    {
      var writeLen := 0;
      while writeLen < |buf|
        invariant Valid() && writeLen <= |buf| && Position() == old(Position()) + writeLen
        invariant Wrote(old(dev.content), dev.content, old(Position()), buf[..writeLen])
        invariant Used(old(dev.faults), dev.faults) && Clean(old(dev.faults), dev.faults)
      {
        ghost var before, faults := dev.content, dev.faults;
        var n := WriteOne(buf[writeLen..]);
        CleanTwice(old(dev.faults), faults, dev.faults);
        if n.None? { return None; }
        WroteMore(old(dev.content), before, dev.content, old(Position()), buf, writeLen, n.value);
        writeLen := writeLen + n.value;
      }
      return Some(writeLen);
    }

    method Seek(s: SeekFrom) returns (r: Option<nat>)
      requires Valid() && SeekOk(s)
      modifies this
      ensures Valid()
      ensures match Target(|dev.content|, old(Position()), s)
        case Some(pos) => r == Some(pos) && Position() == pos
        case None => r == None && Position() == old(Position())
      ensures s.Start? ==> r == Some(s.from)
      ensures s.Current? ==> r == InBounds(old(Position()) + s.delta)
      ensures s.End? ==> r == InBounds(|dev.content| + s.delta)
    {
      var newPos := Target(|dev.content|, Position(), s);
      if newPos.None? { return None; }
      SetPosition(newPos.value);
      return Some(newPos.value);
    }

    /** Round trip: what was written is read back from the same cursor. */
    method WriteThenRead(bytes: seq<Byte>) returns (back: seq<Byte>)
      requires Valid() && Position() + |bytes| <= |dev.content| && forall i | 0 <= i < |dev.faults| :: !dev.faults[i]
      modifies this, dev
      ensures Valid() && back == bytes && dev.content == Splice(old(dev.content), old(Position()), bytes)
    {
      var pos := Position();
      var w := Write(bytes);
      assert bytes[..|bytes|] == bytes;
      var s := Seek(Start(pos));
      var buf := new Byte[|bytes|];
      var r := Read(buf);
      back := buf[..];
      assert buf[..|bytes|] == back;
      if bytes != [] { assert dev.content[pos..pos + |bytes|] == bytes; }
    }
  }
}
