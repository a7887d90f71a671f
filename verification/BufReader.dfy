/**
 The buffered reader, poll by poll.  The logical position is where an unbuffered reader would be; every
 poll behaves as a poll of an unbuffered reader at that position.
 */
module BufReaders {

  import opened Options
  import opened Streams

  /** An unbuffered reader at `pos` that has shown its caller the next `window` bytes and not consumed them. */
  datatype Ref = Ref(pos: nat, window: nat)

  datatype Op = DoRead(len: nat) | DoFill | DoConsume(amount: nat) | DoSeek(from: SeekFrom)
  datatype Result = NotYet | Failed | Bytes(bytes: seq<Byte>) | Done | At(pos: nat)

  function Min(a: nat, b: nat): nat {
    if a < b then a else b
  }

  /** Reading `bytes` moved an unbuffered reader from `before` to `after`. */
  ghost predicate Took(data: seq<Byte>, before: nat, bytes: seq<Byte>, after: nat) {
    HoldsAt(data, before, bytes) && after == before + |bytes|
  }

  /** One poll of the reference reader, which shows at most `cap` bytes at a time.  Bytes it has shown are there
      to be read or shown again at once; a poll that is not ready or fails leaves the reader as it was, except
      that a seek may withdraw what was shown. */
  ghost predicate RefStep(data: seq<Byte>, cap: nat, r: Ref, op: Op, res: Result, r1: Ref) {
    && (r1.window > 0 ==> r1.window <= cap && r1.pos + r1.window <= |data|)
    && match op
       case DoConsume(amount) =>
         res == Done && r1 == Ref(r.pos + Min(amount, r.window), r.window - Min(amount, r.window))
       case DoRead(len) =>
         || ((res.NotYet? || res.Failed?) && r1 == r && r.window == 0)
         || (&& res.Bytes? && |res.bytes| <= len && Took(data, r.pos, res.bytes, r1.pos)
             && (res.bytes == [] ==> len == 0 || r.pos >= |data|)
             && (r.window > 0 ==> |res.bytes| == Min(len, r.window) && r1.window == r.window - |res.bytes|))
       case DoFill =>
         || ((res.NotYet? || res.Failed?) && r1 == r && r.window == 0)
         || (&& res.Bytes? && HoldsAt(data, r.pos, res.bytes) && r1 == Ref(r.pos, |res.bytes|)
             && (res.bytes == [] ==> cap == 0 || r.pos >= |data|) && (r.window > 0 ==> |res.bytes| == r.window))
       case DoSeek(s) =>
         || ((res.NotYet? || res.Failed?) && (r1 == r || r1 == Ref(r.pos, 0)))
         || (res.At? && Target(|data|, r.pos, s) == Some(res.pos) && r1 == Ref(res.pos, 0))
  }

  /** A poll that asks the inner stream waits or fails exactly when that does. */
  ghost predicate Answers(before: seq<Response>, after: seq<Response>, waits: bool, fails: bool) {
    after == Rest(before) && (waits <==> Head(before).NotReady?) && (fails <==> Head(before).Fail?)
  }

  /** Over an inner stream that lets polls through, a seek succeeds exactly when there is a target. */
  ghost predicate GoesIff(script: seq<Response>, script1: seq<Response>, pos: nat, r: Poll<nat>, target: Option<nat>) {
    && (LetsThrough(script) ==> LetsThrough(script1))
    && (LetsThrough(script) && pos <= U64_MAX ==> !r.Pending? && (r.Ok? <==> target.Some?))
  }

  class BufReader {
    const inner: File
    const buf: array<Byte>
    var pos: nat
    var cap: nat

    ghost predicate Valid()
      reads this, inner, buf
    {
      && pos <= cap <= buf.Length <= I64_MAX && cap - pos <= inner.pos
      && HoldsAt(inner.data, inner.pos - (cap - pos), buf[pos..cap])
    }

    /** Where the unbuffered reader would be. */
    ghost function Logical(): nat
      requires Valid()
      reads this, inner, buf
    {
      inner.pos - (cap - pos)
    }

    ghost function View(): Ref
      requires Valid()
      reads this, inner, buf
    {
      Ref(Logical(), cap - pos)
    }

    constructor (inner: File, capacity: nat)
      requires capacity <= I64_MAX
      ensures Valid() && this.inner == inner && fresh(buf) && buf.Length == capacity && View() == Ref(inner.pos, 0)
    {
      this.inner, buf, pos, cap := inner, new Byte[capacity], 0, 0;
    }

    method DiscardBuffer()
      modifies this`pos, this`cap
      ensures pos == cap == 0
    {
      pos, cap := 0, 0;
    }

    method FillBuf() returns (r: Poll<seq<Byte>>)
      requires Valid()
      modifies this`pos, this`cap, inner`pos, inner`script, buf
      ensures Valid() && Logical() == old(Logical())
      ensures r.Ok? ==> r.value == buf[pos..cap] && HoldsAt(inner.data, Logical(), r.value)
      ensures old(pos < cap) ==> r.Ok? && cap - pos == old(cap - pos)
      ensures r.Ok? && r.value == [] ==> buf.Length == 0 || Logical() >= |inner.data|
      ensures !r.Ok? ==> View() == old(View())
      ensures if old(pos < cap) then inner.script == old(inner.script) else Answers(old(inner.script), inner.script, r.Pending?, r.Err?)
    {
      if pos >= cap {
        var n := inner.Read(buf);
        if n.Pending? { return Pending; }
        if n.Err? { return Err(n.error); }
        cap := n.value;
        pos := 0;
      }
      return Ok(buf[pos..cap]);
    }

    method Consume(amount: nat)
      requires Valid()
      modifies this`pos
      ensures Valid()
      ensures var n := Min(amount, old(cap - pos)); View() == Ref(old(Logical()) + n, old(cap - pos) - n)
    {
      ghost var n := Min(amount, cap - pos);
      HoldsRest(inner.data, Logical(), buf[..], pos, cap, n);
      pos := Min(pos + amount, cap);
    }

    method ReadThrough(into: array<Byte>) returns (r: Poll<nat>)
      requires Valid() && into != buf && pos == cap
      modifies this`pos, this`cap, inner`pos, inner`script, into
      ensures Valid()
      ensures !r.Ok? ==> View() == old(View())
      ensures r.Ok? ==> r.value <= into.Length && Took(inner.data, old(Logical()), into[..r.value], Logical())
      ensures r.Ok? && r.value == 0 ==> into.Length == 0 || Logical() >= |inner.data|
      ensures pos == cap && Answers(old(inner.script), inner.script, r.Pending?, r.Err?)
    {
      r := inner.Read(into);
      if r.Pending? { return; }
      DiscardBuffer();
    }

    method ReadBuffered(into: array<Byte>) returns (r: Poll<nat>)
      requires Valid() && into != buf && (pos < cap || into.Length < buf.Length)
      modifies this`pos, this`cap, inner`pos, inner`script, buf, into
      ensures Valid()
      ensures !r.Ok? ==> View() == old(View())
      ensures r.Ok? ==> r.value <= into.Length && Took(inner.data, old(Logical()), into[..r.value], Logical())
      ensures r.Ok? && r.value == 0 ==> into.Length == 0 || Logical() >= |inner.data|
      ensures old(pos < cap) ==> r == Ok(Min(into.Length, old(cap - pos))) && cap - pos == old(cap - pos) - r.value
      ensures if old(pos < cap) then inner.script == old(inner.script) else Answers(old(inner.script), inner.script, r.Pending?, r.Err?)
    {
      var rem := FillBuf();
      if rem.Pending? { return Pending; }
      if rem.Err? { return Err(rem.error); }
      var n := Min(|rem.value|, into.Length);
      HoldsPrefix(inner.data, Logical(), rem.value, n);
      CopyTo(into, 0, rem.value[..n]);
      assert into[..n] == rem.value[..n];
      Consume(n);
      return Ok(n);
    }

    /** One poll of `read`. */
    method Read(into: array<Byte>) returns (r: Poll<nat>)
      requires Valid() && into != buf
      modifies this`pos, this`cap, inner`pos, inner`script, buf, into
      ensures Valid()
      ensures !r.Ok? ==> View() == old(View())
      ensures r.Ok? ==> r.value <= into.Length && Took(inner.data, old(Logical()), into[..r.value], Logical())
      ensures r.Ok? && r.value == 0 ==> into.Length == 0 || Logical() >= |inner.data|
      ensures old(pos < cap) ==> r == Ok(Min(into.Length, old(cap - pos))) && cap - pos == old(cap - pos) - r.value
      ensures if old(pos < cap) then inner.script == old(inner.script) else Answers(old(inner.script), inner.script, r.Pending?, r.Err?)
    {
      if pos == cap && into.Length >= buf.Length {
        r := ReadThrough(into);
      } else {
        r := ReadBuffered(into);
      }
    }

    /** Two seeks of the inner reader: back over the buffer, which is then empty, and on by `delta`. */
    method SeekTwice(delta: int) returns (r: Poll<nat>)
      requires Valid() && SeekOk(Current(delta))
      modifies this`pos, this`cap, inner`pos, inner`script
      ensures Valid()
      ensures !r.Ok? ==> View() == old(View()) || View() == Ref(old(Logical()), 0)
      ensures r.Ok? ==> Target(|inner.data|, old(Logical()), Current(delta)) == Some(r.value) && View() == Ref(r.value, 0)
      ensures r.Ok? ==> inner.pos == Logical()
      ensures |inner.script| <= |old(inner.script)| && (r.Pending? ==> |inner.script| < |old(inner.script)|)
      ensures GoesIff(old(inner.script), inner.script, old(inner.pos), r, Target(|inner.data|, old(Logical()), Current(delta)))
    {
      r := inner.Seek(Current(-(cap - pos)));
      if !r.Ok? { return; }
      DiscardBuffer();
      r := inner.Seek(Current(delta));
      if !r.Ok? { return; }
      DiscardBuffer();
    }

    /** One seek of the inner reader, by which the buffer is empty. */
    method SeekOnce(s: SeekFrom) returns (r: Poll<nat>)
      requires Valid()
      modifies this`pos, this`cap, inner`pos, inner`script
      ensures Valid() && (!r.Ok? ==> View() == old(View()))
      ensures r.Ok? ==> Target(|inner.data|, old(inner.pos), s) == Some(r.value) && View() == Ref(r.value, 0)
      ensures r.Ok? ==> inner.pos == Logical()
      ensures |inner.script| <= |old(inner.script)| && (r.Pending? ==> |inner.script| < |old(inner.script)|)
      ensures GoesIff(old(inner.script), inner.script, old(inner.pos), r, Target(|inner.data|, old(inner.pos), s))
    {
      r := inner.Seek(s);
      if !r.Ok? { return; }
      DiscardBuffer();
    }

    /** One poll of `seek`: two seeks of the inner reader when stepping back over the buffer underflows. */
    method Seek(s: SeekFrom) returns (r: Poll<nat>)
      requires Valid() && SeekOk(s)
      modifies this`pos, this`cap, inner`pos, inner`script
      ensures Valid()
      ensures !r.Ok? ==> View() == old(View()) || View() == Ref(old(Logical()), 0)
      ensures r.Ok? ==> Target(|inner.data|, old(Logical()), s) == Some(r.value) && View() == Ref(r.value, 0)
      ensures r.Ok? ==> inner.pos == Logical()
      ensures |inner.script| <= |old(inner.script)| && (r.Pending? ==> |inner.script| < |old(inner.script)|)
      ensures GoesIff(old(inner.script), inner.script, old(inner.pos), r, Target(|inner.data|, old(Logical()), s))
    {
      if s.Current? {
        var remainder := cap - pos;
        if s.delta - remainder >= I64_MIN {
          r := SeekOnce(Current(s.delta - remainder));
        } else {
          r := SeekTwice(s.delta);
        }
      } else {
        r := SeekOnce(s);
      }
    }

    /** Polling `seek` until it is ready: however often it is interrupted, and wherever, it lands where asked. */
    method SeekAwait(s: SeekFrom) returns (r: Poll<nat>)
      requires Valid() && SeekOk(s)
      modifies this`pos, this`cap, inner`pos, inner`script
      ensures Valid() && !r.Pending?
      ensures r.Err? ==> Logical() == old(Logical())
      ensures r.Ok? ==> Target(|inner.data|, old(Logical()), s) == Some(r.value) && View() == Ref(r.value, 0)
      ensures r.Ok? && s.Current? ==> Logical() == r.value == old(Logical()) + s.delta
      ensures r.Ok? && s.End? ==> Logical() == r.value == |inner.data| + s.delta
      ensures r.Ok? && s.Start? ==> Logical() == r.value == s.from
      ensures GoesIff(old(inner.script), inner.script, old(inner.pos), r, Target(|inner.data|, old(Logical()), s))
    {
      r := Seek(s);
      while r.Pending?
        invariant Valid()
        invariant !r.Ok? ==> Logical() == old(Logical())
        invariant r.Ok? ==> Target(|inner.data|, old(Logical()), s) == Some(r.value) && View() == Ref(r.value, 0)
        invariant GoesIff(old(inner.script), inner.script, old(inner.pos), r, Target(|inner.data|, old(Logical()), s))
        decreases |inner.script|, r.Pending?
      {
        r := Seek(s);
      }
    }

    method ReadPoll(len: nat) returns (res: Result)
      requires Valid()
      modifies this`pos, this`cap, inner`pos, inner`script, buf
      ensures Valid() && RefStep(inner.data, buf.Length, old(View()), DoRead(len), res, View())
      ensures LetsThrough(old(inner.script)) ==> LetsThrough(inner.script) && res.Bytes?
    {
      var into := new Byte[len];
      var r := Read(into);
      res := match r case Pending => NotYet case Err(_) => Failed case Ok(n) => Bytes(into[..n]);
    }

    method FillPoll() returns (res: Result)
      requires Valid()
      modifies this`pos, this`cap, inner`pos, inner`script, buf
      ensures Valid() && RefStep(inner.data, buf.Length, old(View()), DoFill, res, View())
      ensures LetsThrough(old(inner.script)) ==> LetsThrough(inner.script) && res.Bytes?
    {
      var r := FillBuf();
      res := match r case Pending => NotYet case Err(_) => Failed case Ok(bytes) => Bytes(bytes);
    }

    method SeekPoll(s: SeekFrom) returns (res: Result)
      requires Valid() && SeekOk(s)
      modifies this`pos, this`cap, inner`pos, inner`script
      ensures Valid() && RefStep(inner.data, buf.Length, old(View()), DoSeek(s), res, View())
      ensures LetsThrough(old(inner.script)) ==> LetsThrough(inner.script)
    {
      var r := Seek(s);
      res := match r case Pending => NotYet case Err(_) => Failed case Ok(n) => At(n);
    }

    method Poll(op: Op) returns (res: Result)
      requires Valid() && (op.DoSeek? ==> SeekOk(op.from))
      modifies this`pos, this`cap, inner`pos, inner`script, buf
      ensures Valid() && RefStep(inner.data, buf.Length, old(View()), op, res, View())
      ensures LetsThrough(old(inner.script)) ==> LetsThrough(inner.script) && (op.DoRead? || op.DoFill? ==> res.Bytes?)
    {
      match op
      case DoRead(len) => res := ReadPoll(len);
      case DoFill => res := FillPoll();
      case DoConsume(amount) => Consume(amount); res := Done;
      case DoSeek(s) => res := SeekPoll(s);
    }

    /** Any sequence of polls is a run of the unbuffered reader. */
    method Drive(ops: seq<Op>) returns (results: seq<Result>, ghost states: seq<Ref>)
      requires Valid() && forall i | 0 <= i < |ops| :: ops[i].DoSeek? ==> SeekOk(ops[i].from)
      modifies this`pos, this`cap, inner`pos, inner`script, buf
      ensures Valid() && RefRun(inner.data, buf.Length, ops, results, states)
      ensures states[0] == old(View()) && states[|ops|] == View()
      ensures LetsThrough(old(inner.script)) ==> forall i | 0 <= i < |ops| :: ops[i].DoRead? || ops[i].DoFill? ==> results[i].Bytes?
    {
      results, states := [], [View()];
      for n := 0 to |ops|
        invariant Valid() && RefRun(inner.data, buf.Length, ops[..n], results, states)
        invariant states[0] == old(View()) && states[n] == View()
        invariant LetsThrough(old(inner.script)) ==> LetsThrough(inner.script)
        invariant LetsThrough(old(inner.script)) ==> forall i | 0 <= i < n :: ops[i].DoRead? || ops[i].DoFill? ==> results[i].Bytes?
      {
        var res := Poll(ops[n]);
        RunOneMore(inner.data, buf.Length, ops[..n], results, states, ops[n], res, View());
        assert ops[..n + 1] == ops[..n] + [ops[n]];
        results, states := results + [res], states + [View()];
      }
      assert ops[..|ops|] == ops;
    }
  }

  // ---------------------------------------------------------------- runs of the reference reader

  ghost predicate RefRun(data: seq<Byte>, cap: nat, ops: seq<Op>, results: seq<Result>, states: seq<Ref>) {
    && |results| == |ops| && |states| == |ops| + 1
    && forall i | 0 <= i < |ops| :: RefStep(data, cap, states[i], ops[i], results[i], states[i + 1])
  }

  lemma RunOneMore(data: seq<Byte>, cap: nat, ops: seq<Op>, results: seq<Result>, states: seq<Ref>, op: Op, res: Result, r: Ref)
    requires RefRun(data, cap, ops, results, states) && RefStep(data, cap, states[|ops|], op, res, r)
    ensures RefRun(data, cap, ops + [op], results + [res], states + [r])
  {
  }

  /** Without seeks no sequence of polls leaves the file: consumes move over bytes that were shown. */
  lemma {:induction false} StaysInFile(data: seq<Byte>, cap: nat, ops: seq<Op>, results: seq<Result>, states: seq<Ref>)
    requires RefRun(data, cap, ops, results, states) && forall i | 0 <= i < |ops| :: !ops[i].DoSeek?
    requires states[0].pos + states[0].window <= |data|
    ensures states[0].pos <= states[|ops|].pos && states[|ops|].pos + states[|ops|].window <= |data|
    decreases |ops|
  {
    if ops != [] {
      var n := |ops| - 1;
      StaysInFile(data, cap, ops[..n], results[..n], states[..n + 1]);
      StepStaysInFile(data, cap, states[n], ops[n], results[n], states[n + 1]);
    }
  }

  lemma StepStaysInFile(data: seq<Byte>, cap: nat, r: Ref, op: Op, res: Result, r1: Ref)
    requires RefStep(data, cap, r, op, res, r1) && !op.DoSeek? && r.pos + r.window <= |data|
    ensures r.pos <= r1.pos && r1.pos + r1.window <= |data|
  {
  }

  /** What one poll of a read returned. */
  ghost function Answered(op: Op, res: Result): seq<Byte> {
    if op.DoRead? && res.Bytes? then res.bytes else []
  }

  /** What the reads of a run returned, in order. */
  ghost function Received(ops: seq<Op>, results: seq<Result>): seq<Byte>
    requires |results| == |ops|
    decreases |ops|
  {
    if ops == [] then []
    else
      var n := |ops| - 1;
      Received(ops[..n], results[..n]) + Answered(ops[n], results[n])
  }

  /** Reads of a run without seeks or consumes return the file's bytes from the first to the last position. */
  lemma {:induction false} ReadsAreContiguous(data: seq<Byte>, cap: nat, ops: seq<Op>, results: seq<Result>, states: seq<Ref>)
    requires RefRun(data, cap, ops, results, states) && forall i | 0 <= i < |ops| :: ops[i].DoRead? || ops[i].DoFill?
    ensures Took(data, states[0].pos, Received(ops, results), states[|ops|].pos)
    decreases |ops|
  {
    if ops != [] {
      var n := |ops| - 1;
      ReadsAreContiguous(data, cap, ops[..n], results[..n], states[..n + 1]);
      ReadMore(data, cap, states[n], ops[n], results[n], states[n + 1]);
      HoldsMore(data, states[0].pos, Received(ops[..n], results[..n]), Answered(ops[n], results[n]));
    }
  }

  lemma ReadMore(data: seq<Byte>, cap: nat, r: Ref, op: Op, res: Result, r1: Ref)
    requires RefStep(data, cap, r, op, res, r1) && (op.DoRead? || op.DoFill?)
    ensures Took(data, r.pos, Answered(op, res), r1.pos)
  {
  }
}
