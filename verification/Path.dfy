/** Path canonicalization: the in-place string algorithm against the stack of components it denotes. */
module Paths {

  ghost predicate NoSlashes(parts: seq<string>) {
    forall i | 0 <= i < |parts| :: '/' !in parts[i]
  }

  /** The parts of a string that starts with `c` and goes on with `parts`. */
  function StartWith(c: char, parts: seq<string>): seq<string>
    requires parts != []
  {
    if c == '/' then [""] + parts else [[c] + parts[0]] + parts[1..]
  }

  /** The parts between slashes; n slashes make n + 1 parts. */
  function Split(s: string): (parts: seq<string>)
    ensures parts != [] && NoSlashes(parts)
  {
    if s == "" then [""] else StartWith(s[0], Split(s[1..]))
  }

  /** A component that names an entry. */
  predicate Plain(c: string) {
    c != "" && c != "." && c != ".." && '/' !in c
  }

  ghost predicate AllPlain(stack: seq<string>) {
    forall i | 0 <= i < |stack| :: Plain(stack[i])
  }

  /** "." and empty parts are dropped, ".." drops the last component if there is one. */
  function Pushed(stack: seq<string>, part: string): seq<string> {
    if part == "" || part == "." then stack
    else if part == ".." then (if stack == [] then [] else stack[..|stack| - 1])
    else stack + [part]
  }

  function Normal(parts: seq<string>): (stack: seq<string>)
    requires NoSlashes(parts)
    ensures AllPlain(stack)
  {
    if parts == [] then [] else Pushed(Normal(parts[..|parts| - 1]), parts[|parts| - 1])
  }

  function Join(stack: seq<string>): string {
    if stack == [] then ""
    else if |stack| == 1 then stack[0]
    else Join(stack[..|stack| - 1]) + "/" + stack[|stack| - 1]
  }

  function Render(absolute: bool, stack: seq<string>): string {
    (if absolute then "/" else "") + Join(stack)
  }

  predicate Absolute(path: string) {
    path != "" && path[0] == '/'
  }

  function Canonical(path: string): string {
    Render(Absolute(path), Normal(Split(path)))
  }

  // ---------------------------------------------------------------- splitting and joining

  lemma {:induction false} SplitPlain(s: string)
    requires '/' !in s
    ensures Split(s) == [s]
  {
    if s != "" {
      SplitPlain(s[1..]);
      assert s == [s[0]] + s[1..];
    }
  }

  lemma SplitCons(c: char, s: string)
    ensures Split([c] + s) == StartWith(c, Split(s))
  {
    assert ([c] + s)[1..] == s;
  }

  lemma StartWithConcat(c: char, first: seq<string>, second: seq<string>)
    requires first != []
    ensures StartWith(c, first + second) == StartWith(c, first) + second
  {
    assert (first + second)[1..] == first[1..] + second;
  }

  lemma {:induction false} SplitConcat(a: string, b: string)
    ensures Split(a + "/" + b) == Split(a) + Split(b)
  {
    if a == "" {
      SplitCons('/', b);
      assert a + "/" + b == ['/'] + b;
    } else {
      var t := a[1..];
      SplitConcat(t, b);
      SplitCons(a[0], t + "/" + b);
      assert a + "/" + b == [a[0]] + (t + "/" + b);
      StartWithConcat(a[0], Split(t), Split(b));
    }
  }

  lemma CutOut(s: string, n: nat)
    requires n < |s|
    ensures s == s[..n] + [s[n]] + s[n + 1..]
  {
  }

  /** Cutting at the first slash. */
  lemma SplitAt(s: string, n: nat)
    requires n < |s| && s[n] == '/' && '/' !in s[..n]
    ensures Split(s) == [s[..n]] + Split(s[n + 1..])
  {
    SplitConcat(s[..n], s[n + 1..]);
    CutOut(s, n);
    assert [s[n]] == "/";
    SplitPlain(s[..n]);
  }

  lemma {:induction false} SplitJoin(stack: seq<string>)
    requires stack != [] && NoSlashes(stack)
    ensures Split(Join(stack)) == stack
  {
    var n := |stack| - 1;
    SplitPlain(stack[n]);
    if n > 0 {
      SplitJoin(stack[..n]);
      SplitConcat(Join(stack[..n]), stack[n]);
      assert stack == stack[..n] + [stack[n]];
    }
  }

  /** The parts of a rendered path: its components, after an empty part if it is absolute. */
  lemma SplitRender(absolute: bool, stack: seq<string>)
    requires AllPlain(stack)
    ensures Split(Render(absolute, stack)) ==
      (if absolute then [""] else []) + (if stack == [] then [""] else stack)
  {
    if stack != [] { SplitJoin(stack); }
    if absolute {
      SplitConcat("", Join(stack));
      assert Render(true, stack) == "" + "/" + Join(stack);
    } else {
      assert Render(false, stack) == Join(stack);
    }
  }

  lemma NormalOneMore(parts: seq<string>, last: string)
    requires NoSlashes(parts) && '/' !in last
    ensures NoSlashes(parts + [last]) && Normal(parts + [last]) == Pushed(Normal(parts), last)
  {
    assert (parts + [last])[..|parts|] == parts;
  }

  lemma {:induction false} NormalOfPlain(stack: seq<string>)
    requires AllPlain(stack)
    ensures NoSlashes(stack) && Normal(stack) == stack
  {
    if stack != [] {
      var init, last := stack[..|stack| - 1], stack[|stack| - 1];
      NormalOfPlain(init);
      NormalOneMore(init, last);
      assert init + [last] == stack;
    }
  }

  lemma {:induction false} NormalSkipsEmpty(parts: seq<string>)
    requires NoSlashes(parts)
    ensures NoSlashes([""] + parts) && Normal([""] + parts) == Normal(parts)
  {
    if parts == [] {
      NormalOneMore([], "");
      assert [] + [""] == [""] + parts;
    } else {
      var init, last := parts[..|parts| - 1], parts[|parts| - 1];
      NormalSkipsEmpty(init);
      NormalOneMore([""] + init, last);
      assert [""] + init + [last] == [""] + parts;
    }
  }

  lemma {:induction false} JoinStart(stack: seq<string>)
    requires AllPlain(stack)
    ensures stack != [] ==> Join(stack) != "" && Join(stack)[0] != '/' && Join(stack)[|Join(stack)| - 1] != '/'
  {
    if |stack| > 1 { JoinStart(stack[..|stack| - 1]); }
  }

  // ---------------------------------------------------------------- what canonicalization promises

  lemma KeepsAbsoluteness(path: string)
    ensures Absolute(Canonical(path)) <==> Absolute(path)
    ensures "/" <= Canonical(path) <==> "/" <= path
  {
    JoinStart(Normal(Split(path)));
  }

  /** The components of a canonical path are exactly the normal form, none empty, "." or "..". */
  lemma ComponentsArePlain(path: string)
    ensures var stack := Normal(Split(path));
      && AllPlain(stack)
      && Split(Canonical(path)) == (if Absolute(path) then [""] else []) + (if stack == [] then [""] else stack)
      && Normal(Split(Canonical(path))) == stack
  {
    var stack := Normal(Split(path));
    SplitRender(Absolute(path), stack);
    NormalOfPlain(stack);
    var tail := if stack == [] then [""] else stack;
    if stack == [] { NormalSkipsEmpty([]); assert [""] + [] == tail; }
    if Absolute(path) { NormalSkipsEmpty(tail); } else { assert [] + tail == tail; }
  }

  lemma Idempotent(path: string)
    ensures Canonical(Canonical(path)) == Canonical(path)
  {
    KeepsAbsoluteness(path);
    ComponentsArePlain(path);
  }

  // ---------------------------------------------------------------- the string algorithm

  /** The buffer denotes the stack; an absolute path may not have pushed its slash yet. */
  ghost predicate Denotes(buf: string, absolute: bool, stack: seq<string>) {
    buf == Render(absolute, stack) || (absolute && stack == [] && buf == "")
  }

  /** What stands before the last component in a rendered path. */
  ghost function Base(absolute: bool, stack: seq<string>): string {
    if stack == [] then Render(absolute, []) else Render(absolute, stack) + "/"
  }

  lemma RenderLast(absolute: bool, stack: seq<string>, c: string)
    ensures Render(absolute, stack + [c]) == Base(absolute, stack) + c
  {
    assert (stack + [c])[..|stack|] == stack;
    if stack != [] {
      assert Join(stack + [c]) == Join(stack) + "/" + c;
    }
  }

  /** Pops characters back to and including the last slash, but never the root's. */
  method PopChars(buf0: string, ghost base: string, ghost c: string) returns (buf: string)
    requires buf0 == base + c && '/' !in c && (|base| > 1 ==> base[|base| - 1] == '/') && (|base| == 1 ==> base == "/")
    ensures buf == if |base| <= 1 then base else base[..|base| - 1]
  {
    buf := buf0;
    ghost var k := |c|;
    while buf != ""
      invariant 0 <= k <= |c| && buf == base + c[..k]
      decreases |buf|
    {
      assert k > 0 ==> buf[|buf| - 1] == c[k - 1];
      if buf == "/" { break; }
      var last := buf[|buf| - 1];
      buf := buf[..|buf| - 1];
      if last == '/' { break; }
      k := k - 1;
    }
  }

  /** A rendered path is what stands before its last component and that component. */
  lemma LastComponent(absolute: bool, stack: seq<string>, buf: string) returns (base: string, c: string)
    requires AllPlain(stack) && Denotes(buf, absolute, stack)
    ensures buf == base + c && '/' !in c && (|base| > 1 ==> base[|base| - 1] == '/') && (|base| == 1 ==> base == "/")
    ensures Denotes(if |base| <= 1 then base else base[..|base| - 1], absolute, Pushed(stack, ".."))
  {
    if stack == [] {
      base, c := buf, "";
    } else {
      var n := |stack| - 1;
      base, c := Base(absolute, stack[..n]), stack[n];
      RenderLast(absolute, stack[..n], c);
      assert stack[..n] + [c] == stack;
      JoinStart(stack[..n]);
    }
  }

  method PopComponent(absolute: bool, ghost stack: seq<string>, buf0: string) returns (buf: string)
    requires AllPlain(stack) && Denotes(buf0, absolute, stack)
    ensures Denotes(buf, absolute, Pushed(stack, ".."))
  {
    ghost var base, c := LastComponent(absolute, stack, buf0);
    buf := PopChars(buf0, base, c);
  }

  /** The component ends in a character of one byte. */
  predicate EndsInAscii(c: string) {
    c != "" && c[|c| - 1] as int < 128
  }

  /** Appends a component.  The code looks at the last byte of the buffer as a string of its own; `ok` says that
      this byte is a character. */
  method PushComponent(absolute: bool, ghost stack: seq<string>, buf0: string, part: string) returns (ok: bool, buf: string)
    requires AllPlain(stack) && Denotes(buf0, absolute, stack) && Plain(part)
    ensures ok <==> stack == [] || EndsInAscii(stack[|stack| - 1])
    ensures ok ==> Denotes(buf, absolute, stack + [part])
  {
    ok, buf := true, buf0;
    JoinStart(stack);
    RenderLast(absolute, stack, part);
    if stack != [] { LastOfRender(absolute, stack); }
    if buf == "" {
      if absolute { buf := buf + "/"; }
    } else {
      ok := buf[|buf| - 1] as int < 128;
      if !ok { return; }
      if buf[|buf| - 1] != '/' { buf := buf + "/"; }
    }
    buf := buf + part;
  }

  lemma LastOfRender(absolute: bool, stack: seq<string>)
    requires AllPlain(stack) && stack != []
    ensures var (r, c) := (Render(absolute, stack), stack[|stack| - 1]);
      r != "" && c != "" && r[|r| - 1] == c[|c| - 1]
  {
    RenderLast(absolute, stack[..|stack| - 1], stack[|stack| - 1]);
    assert stack[..|stack| - 1] + [stack[|stack| - 1]] == stack;
  }

  /** At the name `parts[i]` the last component so far, if any, ends in a character of one byte. */
  ghost predicate PushableAt(parts: seq<string>, i: nat)
    requires NoSlashes(parts) && i < |parts|
  {
    var stack := Normal(parts[..i]);
    Plain(parts[i]) && stack != [] ==> EndsInAscii(stack[|stack| - 1])
  }

  /** The code does not stop on this path: no name follows a component that ends in a longer character. */
  ghost predicate Sliceable(path: string) {
    var parts := Split(path); forall i: nat | i < |parts| :: PushableAt(parts, i)
  }

  /** The code stops on "x/z" when x ends in a longer character. */
  lemma LongCharacterStops(x: string, z: string)
    requires Plain(x) && Plain(z) && !EndsInAscii(x)
    ensures !Sliceable(x + "/" + z)
  {
    SplitPlain(x);
    SplitPlain(z);
    SplitConcat(x, z);
    var parts := Split(x + "/" + z);
    assert parts == [x] + [z] && parts[..1] == [x] && parts[..1][..0] == [];
    assert Normal(parts[..1]) == [x];
    assert !PushableAt(parts, 1);
  }

  /** For example when x is an accented letter. */
  lemma AccentStops()
    ensures !Sliceable("\U{E9}" + "/" + "a")
  {
    LongCharacterStops("\U{E9}", "a");
  }

  /** Every path of one-byte characters is. */
  lemma AsciiIsSliceable(path: string)
    requires forall i | 0 <= i < |path| :: path[i] as int < 128
    ensures Sliceable(path)
  {
    var parts := Split(path);
    SplitIsAscii(path);
    forall i: nat | i < |parts| ensures PushableAt(parts, i) {
      var stack := Normal(parts[..i]);
      if stack != [] {
        NormalFromParts(parts[..i], stack[|stack| - 1]);
        var j :| 0 <= j < i && parts[..i][j] == stack[|stack| - 1];
        assert parts[j] == stack[|stack| - 1];
      }
    }
  }

  lemma {:induction false} SplitIsAscii(s: string)
    requires forall i | 0 <= i < |s| :: s[i] as int < 128
    ensures forall i, j | 0 <= i < |Split(s)| && 0 <= j < |Split(s)[i]| :: Split(s)[i][j] as int < 128
  {
    if s != "" { SplitIsAscii(s[1..]); }
  }

  lemma {:induction false} NormalFromParts(parts: seq<string>, c: string)
    requires NoSlashes(parts) && c in Normal(parts)
    ensures c in parts
  {
    var init := parts[..|parts| - 1];
    if c in Normal(init) { NormalFromParts(init, c); }
  }

  /** The canonical form of a path, if the code does not stop. */
  method Canonicalize(path: string) returns (ok: bool, buf: string)
    ensures ok <==> Sliceable(path)
    ensures ok ==> buf == Canonical(path)
  {
    ok, buf := true, "";
    var absolute := Absolute(path);
    var parts := Split(path);
    ghost var stack: seq<string> := [];
    for i := 0 to |parts|
      invariant ok && stack == Normal(parts[..i]) && Denotes(buf, absolute, stack)
      invariant forall j: nat | j < i :: PushableAt(parts, j)
    {
      var part := parts[i];
      assert parts[..i + 1][..i] == parts[..i];
      if part == ".." {
        buf := PopComponent(absolute, stack, buf);
      } else if part != "" && part != "." {
        ok, buf := PushComponent(absolute, stack, buf, part);
        if !ok {
          assert !PushableAt(parts, i);
          return;
        }
      }
      assert PushableAt(parts, i);
      stack := Pushed(stack, part);
    }
    assert parts[..|parts|] == parts;
    if absolute && buf == "" { buf := buf + "/"; }
  }
}
