/**
 The buffered writer, poll by poll.  Whatever the inner writer answers, its file followed by the unwritten
 part of the buffer is everything accepted so far, in order.
 */
module BufWriters {

  import opened Options
  import opened Streams

  /** What reached the inner writer: bytes, and seeks between them. */
  datatype Event = Put(byte: Byte) | Moved(to: SeekFrom)

  /** An unbuffered file as a writer sees it: what was done to it, where it stands and how long it is. */
  datatype Tape = Tape(log: seq<Event>, pos: nat, size: nat)

  function Puts(bytes: seq<Byte>): (r: seq<Event>)
    ensures |r| == |bytes| && forall i | 0 <= i < |r| :: r[i] == Put(bytes[i])
  {
    seq(|bytes|, i requires 0 <= i < |bytes| => Put(bytes[i]))
  }

  /** The tape after `bytes` were written at its position. */
  function After(t: Tape, bytes: seq<Byte>): Tape {
    var end := t.pos + |bytes|;
    if bytes == [] then t else Tape(t.log + Puts(bytes), end, if end > t.size then end else t.size)
  }

  lemma AfterTwice(t: Tape, a: seq<Byte>, b: seq<Byte>)
    ensures After(After(t, a), b) == After(t, a + b)
  {
    if a == [] {
      assert a + b == b;
    } else if b == [] {
      assert a + b == a;
    } else {
      PutsBoth(t.log, a, b);
    }
  }

  lemma PutsBoth(log: seq<Event>, a: seq<Byte>, b: seq<Byte>)
    ensures log + Puts(a) + Puts(b) == log + Puts(a + b)
  {
    assert Puts(a + b) == Puts(a) + Puts(b);
  }

  /** Writing the first n of the bytes from m on and then the rest is writing them all. */
  lemma AfterMore(t: Tape, bytes: seq<Byte>, m: nat, n: nat)
    requires m + n <= |bytes|
    ensures After(After(t, bytes[m..][..n]), bytes[m + n..]) == After(t, bytes[m..])
  {
    TakeMore(bytes, m, n);
    AfterTwice(t, bytes[m..][..n], bytes[m + n..]);
    assert bytes[m..][..n] + bytes[m + n..] == bytes[m..];
  }

  /** How the inner writer answers a poll; `Accept(k)` takes at most k bytes. */
  datatype Answer = NotReady | Refuse(error: Error) | Accept(limit: nat)

  /** The inner writer takes something of every write and refuses nothing. */
  ghost predicate Willing(script: seq<Answer>) {
    forall i | 0 <= i < |script| :: script[i].Accept? && script[i].limit > 0
  }

  class Sink {
    var tape: Tape
    var script: seq<Answer>
    /** Nothing was written since the last flush. */
    var settled: bool

    constructor (size: nat, script: seq<Answer>)
      ensures tape == Tape([], 0, size) && this.script == script && settled
    {
      tape, this.script, settled := Tape([], 0, size), script, true;
    }

    /** The next answer; once the script is used up everything is accepted. */
    method Next(size: nat) returns (a: Answer)
      modifies this`script
      ensures old(script) == [] ==> a == Accept(size) && script == []
      ensures old(script) != [] ==> a == old(script)[0] && script == old(script)[1..]
    {
      if script == [] { return Accept(size); }
      a, script := script[0], script[1..];
    }

    method Write(bytes: seq<Byte>) returns (r: Poll<nat>)
      modifies this
      ensures r.Ok? ==> r.value <= |bytes| && tape == After(old(tape), bytes[..r.value])
      ensures !r.Ok? ==> tape == old(tape)
      ensures |script| < |old(script)| || (script == [] && r == Ok(|bytes|))
      ensures Willing(old(script)) ==> Willing(script) && r.Ok? && (bytes != [] ==> r.value > 0)
    {
      var a := Next(|bytes|);
      match a
      case NotReady => return Pending;
      case Refuse(e) => return Err(e);
      case Accept(limit) =>
        var n := if limit < |bytes| then limit else |bytes|;
        tape, settled := After(tape, bytes[..n]), settled && n == 0;
        return Ok(n);
    }

    method Flush() returns (r: Poll<()>)
      modifies this`script, this`settled
      ensures r.Ok? ==> settled
      ensures |script| < |old(script)| || (script == [] && r.Ok?)
      ensures Willing(old(script)) ==> Willing(script) && r.Ok?
    {
      var a := Next(0);
      match a
      case NotReady => return Pending;
      case Refuse(e) => return Err(e);
      case Accept(_) =>
        settled := true;
        return Ok(());
    }

    /** Lands where the argument says, if that is a position at all. */
    method Seek(s: SeekFrom) returns (r: Poll<nat>)
      modifies this
      ensures r.Ok? ==> Target(old(tape).size, old(tape).pos, s) == Some(r.value)
      ensures r.Ok? ==> tape == Tape(old(tape).log + [Moved(s)], r.value, old(tape).size)
      ensures !r.Ok? ==> tape == old(tape)
      ensures Willing(old(script)) ==> Willing(script) && !r.Pending? && (r.Ok? <==> Target(old(tape).size, old(tape).pos, s).Some?)
    {
      var a := Next(0);
      match a
      case NotReady => return Pending;
      case Refuse(e) => return Err(e);
      case Accept(_) =>
        var target := Target(tape.size, tape.pos, s);
        if target.None? { return Err(Other); }
        tape := Tape(tape.log + [Moved(s)], target.value, tape.size);
        return Ok(target.value);
    }
  }

  class BufWriter {
    const inner: Sink
    const capacity: nat
    var buf: seq<Byte>
    var written: nat

    ghost predicate Valid()
      reads this
    {
      written <= |buf| <= capacity
    }

    /** The inner file as everything accepted so far would leave it. */
    ghost function Accepted(): Tape
      requires Valid()
      reads this, inner
    {
      After(inner.tape, buf[written..])
    }

    constructor (inner: Sink, capacity: nat)
      ensures Valid() && this.inner == inner && this.capacity == capacity && Accepted() == inner.tape && buf == []
    {
      this.inner, this.capacity, buf, written := inner, capacity, [], 0;
    }

    /** One write of the flush loop. */
    method WriteUnwritten() returns (w: Poll<nat>)
      requires Valid() && written < |buf|
      modifies this`written, inner
      ensures Valid() && Accepted() == old(Accepted())
      ensures w.Ok? ==> written == old(written) + w.value
      ensures !w.Ok? ==> written == old(written)
      ensures |inner.script| < |old(inner.script)| || (|inner.script| == |old(inner.script)| && w.Ok? && w.value > 0)
      ensures Willing(old(inner.script)) ==> Willing(inner.script) && w.Ok? && w.value > 0
    {
      w := inner.Write(buf[written..]);
      if w.Ok? {
        AfterMore(old(inner.tape), buf, written, w.value);
        written := written + w.value;
      }
    }

    /** One poll of `poll_flush_buf`: success means the buffer is empty and all of it is in the sink. */
    method PollFlushBuf() returns (r: Poll<()>)
      requires Valid()
      modifies this`buf, this`written, inner
      ensures Valid() && Accepted() == old(Accepted())
      ensures r.Ok? ==> buf == [] && inner.tape == Accepted()
      ensures r.Err? ==> r.error != Interrupted && written == 0 && buf != []
      ensures |inner.script| <= |old(inner.script)| && (r.Pending? ==> |inner.script| < |old(inner.script)|)
      ensures Willing(old(inner.script)) ==> Willing(inner.script) && r.Ok?
    {
      r := Ok(());
      while written < |buf|
        invariant Valid() && buf == old(buf) && Accepted() == old(Accepted()) && r == Ok(())
        invariant |inner.script| <= |old(inner.script)| && (Willing(old(inner.script)) ==> Willing(inner.script))
        decreases |inner.script|, |buf| - written
      {
        var w := WriteUnwritten();
        if w.Ok? && w.value == 0 {
          r := Err(WriteZero);
          break;
        } else if w.Err? && w.error != Interrupted {
          r := Err(w.error);
          break;
        } else if w.Pending? {
          return Pending;
        }
      }
      Drain();
    }

    method Drain()
      requires Valid()
      modifies this`buf, this`written
      ensures Valid() && Accepted() == old(Accepted()) && buf == old(buf[written..]) && written == 0
    {
      buf, written := buf[written..], 0;
      assert buf[0..] == buf;
    }

    /** A write that is too large for an empty buffer goes straight to the inner writer. */
    method WriteThrough(bytes: seq<Byte>) returns (r: Poll<nat>)
      requires Valid() && buf == []
      modifies inner
      ensures Valid()
      ensures r.Ok? ==> r.value <= |bytes| && Accepted() == After(old(Accepted()), bytes[..r.value])
      ensures !r.Ok? ==> Accepted() == old(Accepted())
      ensures Willing(old(inner.script)) ==> Willing(inner.script) && r.Ok? && (bytes != [] ==> r.value > 0)
    {
      r := inner.Write(bytes);
    }

    method Append(bytes: seq<Byte>)
      requires Valid() && |buf| + |bytes| <= capacity
      modifies this`buf
      ensures Valid() && Accepted() == After(old(Accepted()), bytes)
    {
      AfterTwice(inner.tape, buf[written..], bytes);
      assert (buf + bytes)[written..] == buf[written..] + bytes;
      buf := buf + bytes;
    }

    /** Empties a buffer that `size` more bytes do not fit in. */
    method MakeRoom(size: nat) returns (r: Poll<()>)
      requires Valid()
      modifies this`buf, this`written, inner
      ensures Valid() && Accepted() == old(Accepted())
      ensures r.Ok? ==> buf == [] || |buf| + size <= capacity
      ensures Willing(old(inner.script)) ==> Willing(inner.script) && r.Ok?
    {
      r := Ok(());
      if |buf| + size > capacity { r := PollFlushBuf(); }
    }

    /** One poll of `write`: exactly the first n bytes were accepted, or nothing was. */
    method Write(bytes: seq<Byte>) returns (r: Poll<nat>)
      requires Valid()
      modifies this`buf, this`written, inner
      ensures Valid()
      ensures r.Ok? ==> r.value <= |bytes| && Accepted() == After(old(Accepted()), bytes[..r.value])
      ensures !r.Ok? ==> Accepted() == old(Accepted())
      ensures Willing(old(inner.script)) ==> Willing(inner.script) && r.Ok? && (bytes != [] ==> r.value > 0)
    {
      var room := MakeRoom(|bytes|);
      if room.Pending? { return Pending; }
      if room.Err? { return Err(room.error); }
      if |bytes| >= capacity {
        r := WriteThrough(bytes);
      } else {
        Append(bytes);
        assert bytes[..|bytes|] == bytes;
        r := Ok(|bytes|);
      }
    }

    /** One poll of `flush`. */
    method Flush() returns (r: Poll<()>)
      requires Valid()
      modifies this`buf, this`written, inner
      ensures Valid() && Accepted() == old(Accepted())
      ensures r.Ok? ==> buf == [] && inner.tape == old(Accepted()) && inner.settled
      ensures |inner.script| <= |old(inner.script)| && (r.Pending? ==> |inner.script| < |old(inner.script)|)
      ensures Willing(old(inner.script)) ==> Willing(inner.script) && r.Ok?
    {
      r := PollFlushBuf();
      if r.Ok? {
        r := inner.Flush();
      }
    }

    /** Polling `flush` until it is ready. */
    method FlushAwait() returns (r: Poll<()>)
      requires Valid()
      modifies this`buf, this`written, inner
      ensures Valid() && !r.Pending? && Accepted() == old(Accepted())
      ensures r.Ok? ==> buf == [] && inner.tape == old(Accepted()) && inner.settled
    {
      r := Flush();
      while r.Pending?
        invariant Valid() && Accepted() == old(Accepted())
        invariant r.Ok? ==> buf == [] && inner.tape == old(Accepted()) && inner.settled
        decreases |inner.script|, r.Pending?
      {
        r := Flush();
      }
    }

    /** One poll of `seek`: the inner writer moves only after every accepted byte is in it. */
    method Seek(s: SeekFrom) returns (r: Poll<nat>)
      requires Valid()
      modifies this`buf, this`written, inner
      ensures Valid()
      ensures r.Ok? ==> buf == [] && inner.tape == Accepted() && Sought(old(Accepted()), s, r.value, Accepted())
      ensures !r.Ok? ==> Accepted() == old(Accepted())
      ensures Willing(old(inner.script)) ==>
        Willing(inner.script) && !r.Pending? && (r.Ok? <==> Target(old(Accepted()).size, old(Accepted()).pos, s).Some?)
    {
      var f := PollFlushBuf();
      if f.Pending? { return Pending; }
      if f.Err? { return Err(f.error); }
      r := inner.Seek(s);
    }

    method Perform(op: Op) returns (res: Poll<nat>)
      requires Valid()
      modifies this`buf, this`written, inner
      ensures Valid() && Allowed(old(Accepted()), op, res, Accepted())
      ensures op.DoFlush? && res.Ok? ==> buf == [] && inner.tape == Accepted()
      ensures Willing(old(inner.script)) ==> Willing(inner.script) && Obliges(op, res)
    {
      match op
      case DoWrite(bytes) =>
        res := Write(bytes);
      case DoFlush =>
        var r := Flush();
        res := match r case Pending => Pending case Err(e) => Err(e) case Ok(_) => Ok(0);
      case DoSeek(s) =>
        res := Seek(s);
    }

    /** Any sequence of polls is a run of an unbuffered writer: nothing accepted is lost, repeated or reordered. */
    method Drive(ops: seq<Op>) returns (results: seq<Poll<nat>>, ghost tapes: seq<Tape>)
      requires Valid()
      modifies this`buf, this`written, inner
      ensures Valid() && IsRun(tapes, ops, results) && tapes[0] == old(Accepted()) && tapes[|ops|] == Accepted()
      ensures ops != [] && ops[|ops| - 1].DoFlush? && results[|ops| - 1].Ok? ==> inner.tape == Accepted()
      ensures Willing(old(inner.script)) ==> forall i | 0 <= i < |ops| :: Obliges(ops[i], results[i])
    {
      results, tapes := [], [Accepted()];
      for n := 0 to |ops|
        invariant Valid() && IsRun(tapes, ops[..n], results) && tapes[0] == old(Accepted()) && tapes[n] == Accepted()
        invariant n > 0 && ops[n - 1].DoFlush? && results[n - 1].Ok? ==> inner.tape == Accepted()
        invariant Willing(old(inner.script)) ==> Willing(inner.script) && forall i | 0 <= i < n :: Obliges(ops[i], results[i])
      {
        var res := Perform(ops[n]);
        RunMore(tapes, ops[..n], results, ops[n], res, Accepted());
        assert ops[..n + 1] == ops[..n] + [ops[n]];
        results, tapes := results + [res], tapes + [Accepted()];
      }
      assert ops[..|ops|] == ops;
    }
  }

  datatype Op = DoWrite(bytes: seq<Byte>) | DoFlush | DoSeek(to: SeekFrom)

  /** Writes and flushes succeed, and a write that is not empty makes progress. */
  ghost predicate Obliges(op: Op, res: Poll<nat>) {
    !op.DoSeek? ==> res.Ok? && (op.DoWrite? && op.bytes != [] ==> res.value > 0)
  }

  /** A seek took an unbuffered file from `t` to `t1` and answered `pos`. */
  ghost predicate Sought(t: Tape, s: SeekFrom, pos: nat, t1: Tape) {
    Target(t.size, t.pos, s) == Some(pos) && t1 == Tape(t.log + [Moved(s)], pos, t.size)
  }

  /** What one poll of an unbuffered writer may answer and do; one that is not ready or fails does nothing. */
  ghost predicate Allowed(t: Tape, op: Op, res: Poll<nat>, t1: Tape) {
    if !res.Ok? then t1 == t
    else match op
      case DoWrite(bytes) => res.value <= |bytes| && t1 == After(t, bytes[..res.value])
      case DoFlush => t1 == t
      case DoSeek(s) => Sought(t, s, res.value, t1)
  }

  ghost predicate IsRun(tapes: seq<Tape>, ops: seq<Op>, results: seq<Poll<nat>>) {
    && |tapes| == |ops| + 1 && |results| == |ops|
    && forall i: nat | i < |ops| :: Allowed(tapes[i], ops[i], results[i], tapes[i + 1])
  }

  lemma RunMore(tapes: seq<Tape>, ops: seq<Op>, results: seq<Poll<nat>>, op: Op, res: Poll<nat>, t: Tape)
    requires IsRun(tapes, ops, results) && Allowed(tapes[|ops|], op, res, t)
    ensures IsRun(tapes + [t], ops + [op], results + [res])
  {
  }
}
