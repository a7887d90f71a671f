/** Polled byte streams: what one poll can answer, and an inner file driven by a finite script of answers. */
module Streams {

  import opened Options

  datatype Error = WriteZero | Interrupted | Other
  datatype Poll<+T> = Pending | Err(error: Error) | Ok(value: T)

  type Byte = bv8

  const I64_MIN: int := -0x8000_0000_0000_0000
  const I64_MAX: int := 0x7FFF_FFFF_FFFF_FFFF
  const U64_MAX: int := 0xFFFF_FFFF_FFFF_FFFF

  datatype SeekFrom = Start(from: nat) | End(delta: int) | Current(delta: int)

  /** The integer widths of the seek argument. */
  predicate SeekOk(s: SeekFrom) {
    match s
    case Start(n) => n <= U64_MAX
    case End(n) => I64_MIN <= n <= I64_MAX
    case Current(n) => I64_MIN <= n <= I64_MAX
  }

  /** Where a seek leads, if that is a position at all. */
  function Target(size: nat, pos: nat, s: SeekFrom): Option<nat> {
    var t := match s case Start(n) => n as int case End(n) => size + n case Current(n) => pos + n;
    if 0 <= t <= U64_MAX then Some(t) else None
  }

  /** How the inner stream answers a poll; `Go(k)` reads up to k + 1 bytes. */
  datatype Response = NotReady | Fail | Go(more: nat)

  function Head(script: seq<Response>): Response {
    if script == [] then Go(0) else script[0]
  }

  function Rest(script: seq<Response>): seq<Response> {
    if script == [] then [] else script[1..]
  }

  /** The inner stream lets every poll through. */
  ghost predicate LetsThrough(script: seq<Response>) {
    forall i | 0 <= i < |script| :: script[i].Go?
  }

  /** `bytes` is what `data` holds at `pos`. */
  ghost predicate HoldsAt(data: seq<Byte>, pos: nat, bytes: seq<Byte>) {
    bytes == [] || (pos + |bytes| <= |data| && bytes == data[pos..pos + |bytes|])
  }

  lemma HoldsMore(data: seq<Byte>, pos: nat, a: seq<Byte>, b: seq<Byte>)
    requires HoldsAt(data, pos, a) && HoldsAt(data, pos + |a|, b)
    ensures HoldsAt(data, pos, a + b)
  {
  }

  lemma HoldsPrefix(data: seq<Byte>, pos: nat, bytes: seq<Byte>, n: nat)
    requires HoldsAt(data, pos, bytes) && n <= |bytes|
    ensures HoldsAt(data, pos, bytes[..n]) && HoldsAt(data, pos + n, bytes[n..])
  {
  }

  lemma HoldsRest(data: seq<Byte>, pos: nat, buf: seq<Byte>, from: nat, to: nat, n: nat)
    requires from + n <= to <= |buf| && HoldsAt(data, pos, buf[from..to])
    ensures HoldsAt(data, pos + n, buf[from + n..to])
  {
    HoldsPrefix(data, pos, buf[from..to], n);
    assert buf[from..to][n..] == buf[from + n..to];
  }

  /** A longer prefix is the shorter one and what follows it. */
  lemma TakeMore(bytes: seq<Byte>, m: nat, n: nat)
    requires m + n <= |bytes|
    ensures bytes[..m + n] == bytes[..m] + bytes[m..][..n]
    ensures bytes[m..][n..] == bytes[m + n..]
  {
  }

  method CopyTo(into: array<Byte>, from: nat, bytes: seq<Byte>)
    requires from + |bytes| <= into.Length
    modifies into
    ensures into[..from] == old(into[..from]) && into[from..from + |bytes|] == bytes
    ensures into[..from + |bytes|] == old(into[..from]) + bytes
  {
    forall i | 0 <= i < |bytes| { into[from + i] := bytes[i]; }
  }

  class File {
    const data: seq<Byte>
    var pos: nat
    var script: seq<Response>

    constructor (data: seq<Byte>, script: seq<Response>)
      ensures this.data == data && pos == 0 && this.script == script
    {
      this.data, pos, this.script := data, 0, script;
    }

    /** Fills a prefix of `into`; reads nothing only at the end or when nothing was asked for. */
    method Read(into: array<Byte>) returns (r: Poll<nat>)
      modifies this`pos, this`script, into
      ensures script == Rest(old(script)) && (r.Pending? <==> Head(old(script)).NotReady?)
      ensures r.Err? <==> Head(old(script)).Fail?
      ensures !r.Ok? ==> pos == old(pos)
      ensures r.Ok? ==> r.value <= into.Length && pos == old(pos) + r.value && HoldsAt(data, old(pos), into[..r.value])
      ensures r.Ok? && r.value == 0 ==> into.Length == 0 || pos >= |data|
    {
      var answer := Head(script);
      script := Rest(script);
      match answer
      case NotReady => return Pending;
      case Fail => return Err(Other);
      case Go(more) =>
        var left := if pos < |data| then |data| - pos else 0;
        var n := if more + 1 < into.Length then more + 1 else into.Length;
        n := if n < left then n else left;
        forall i | 0 <= i < n { into[i] := data[pos + i]; }
        assert n > 0 ==> into[..n] == data[pos..pos + n];
        pos := pos + n;
        return Ok(n);
    }

    method Seek(s: SeekFrom) returns (r: Poll<nat>)
      modifies this`pos, this`script
      ensures script == Rest(old(script)) && (r.Pending? <==> Head(old(script)).NotReady?)
      ensures Head(old(script)).Go? ==> (r.Ok? <==> Target(|data|, old(pos), s).Some?)
      ensures !r.Ok? ==> pos == old(pos)
      ensures r.Ok? ==> Target(|data|, old(pos), s) == Some(r.value) && pos == r.value
    {
      var answer := Head(script);
      script := Rest(script);
      match answer
      case NotReady => return Pending;
      case Fail => return Err(Other);
      case Go(_) =>
        var target := Target(|data|, pos, s);
        if target.None? { return Err(Other); }
        pos := target.value;
        return Ok(pos);
    }
  }
}
