/**
 Searching a sorted list of disjoint segments for the first gap that is large enough.
 */
module FreeSpace {
  import opened Options

  datatype Segment = Segment(start: nat, end: nat)

  predicate Apart(a: Segment, b: Segment) {
    a.end <= b.start || b.end <= a.start
  }

  /** Segments are non-empty and in order, so they do not overlap. */
  ghost predicate InOrder(segs: seq<Segment>) {
    && (forall i | 0 <= i < |segs| :: segs[i].start < segs[i].end)
    && (forall i, j | 0 <= i < j < |segs| :: segs[i].end <= segs[j].start)
  }

  /** Inserts a segment where it belongs. */
  method InsertSegment(segs: seq<Segment>, x: Segment) returns (r: seq<Segment>)
    requires InOrder(segs) && x.start < x.end && forall s | s in segs :: Apart(s, x)
    ensures InOrder(r)
    ensures forall s :: s in r <==> s in segs || s == x
  {
    var i := 0;
    while i < |segs| && segs[i].start < x.start
      invariant 0 <= i <= |segs|
      invariant forall j | 0 <= j < i :: segs[j].start < x.start
    {
      i := i + 1;
    }
    r := segs[..i] + [x] + segs[i..];
    forall j | 0 <= j < |segs| ensures if j < i then segs[j].end <= x.start else x.end <= segs[j].start {
      assert segs[j] in segs;
      assert j >= i ==> segs[i].start <= segs[j].start;
    }
    forall s ensures s in r <==> s in segs || s == x {
      assert segs == segs[..i] + segs[i..];
    }
  }

  ghost function SetOf(segs: seq<Segment>): set<Segment> {
    set s | s in segs
  }

  /** `s` is the first segment. */
  ghost predicate Lowest(segs: set<Segment>, s: Segment) {
    s in segs && forall t | t in segs :: s.start <= t.start
  }

  /** `b` is the next segment after `a`. */
  ghost predicate Next(segs: set<Segment>, a: Segment, b: Segment) {
    a in segs && b in segs && a.end <= b.start && forall t | t in segs :: t.start <= a.start || b.start <= t.start
  }

  /** A gap of `n` pages that begins where segment `a` ends. */
  ghost predicate GapAfter(segs: set<Segment>, n: nat, a: Segment) {
    exists b :: Next(segs, a, b) && a.end + n <= b.start
  }

  /** `r` is the hint if that fits below the first segment, and otherwise where the lowest gap that fits begins. */
  ghost predicate FirstFit(segs: set<Segment>, from: nat, n: nat, r: nat) {
    forall s | Lowest(segs, s) ::
      if from + n <= s.start then r == from
      else (exists a :: GapAfter(segs, n, a) && r == a.end) && (forall a | GapAfter(segs, n, a) :: r <= a.end)
  }

  lemma LowestExists(segs: set<Segment>)
    requires segs != {}
    ensures exists s :: Lowest(segs, s)
    decreases segs
  {
    var s :| s in segs;
    var rest := segs - {s};
    assert segs == {s} + rest;
    if rest != {} {
      LowestExists(rest);
      var t :| Lowest(rest, t);
      assert s.start <= t.start ==> Lowest(segs, s);
      assert t.start <= s.start ==> Lowest(segs, t);
    } else {
      assert Lowest(segs, s);
    }
  }

  /** There is only one first fit. */
  lemma FirstFitIsOne(segs: set<Segment>, from: nat, n: nat, r: nat, r1: nat)
    requires segs != {} && FirstFit(segs, from, n, r) && FirstFit(segs, from, n, r1)
    ensures r == r1
  {
    LowestExists(segs);
    var s :| Lowest(segs, s);
  }

  /** Neither the space from `from` to the first segment nor any gap between consecutive ones has `n` pages. */
  ghost predicate NoRoom(segs: set<Segment>, from: nat, n: nat) {
    (forall s | Lowest(segs, s) :: from + n > s.start) && (forall a, b | Next(segs, a, b) :: a.end + n > b.start)
  }

  /** The `n` pages at `r` meet no segment, and some segment lies above them. */
  ghost predicate IsFree(segs: set<Segment>, n: nat, r: nat) {
    && (forall s | s in segs :: Apart(s, Segment(r, r + n)))
    && (exists s :: s in segs && r + n <= s.start)
  }

  /** The gap search: from the clamped hint to the first segment, then between consecutive ones. */
  method FirstGap(segs: seq<Segment>, from: nat, n: nat) returns (r: Option<nat>)
    requires InOrder(segs)
    ensures r.Some? ==> IsFree(SetOf(segs), n, r.value) && FirstFit(SetOf(segs), from, n, r.value)
    ensures r.None? <==> NoRoom(SetOf(segs), from, n)
  {
    var lastEnd := from;
    for i := 0 to |segs|
      invariant lastEnd == if i == 0 then from else segs[i - 1].end
      invariant i > 0 ==> from + n > segs[0].start
      invariant forall j | 0 <= j < i - 1 :: segs[j].end + n > segs[j + 1].start
    {
      if lastEnd + n <= segs[i].start {
        GapFits(segs, i, from, n);
        GapIsFirst(segs, i, from, n);
        return Some(lastEnd);
      }
      lastEnd := segs[i].end;
    }
    NoGapFits(segs, from, n);
    return None;
  }

  lemma GapFits(segs: seq<Segment>, i: nat, from: nat, n: nat)
    requires InOrder(segs) && i < |segs|
    requires (if i == 0 then from else segs[i - 1].end) + n <= segs[i].start
    ensures IsFree(SetOf(segs), n, if i == 0 then from else segs[i - 1].end) && !NoRoom(SetOf(segs), from, n)
  {
    var at := if i == 0 then from else segs[i - 1].end;
    var all := SetOf(segs);
    assert segs[i] in all;
    forall s | s in all ensures Apart(s, Segment(at, at + n)) {
      var j :| 0 <= j < |segs| && segs[j] == s;
      assert j < i ==> j == i - 1 || segs[j].end <= segs[i - 1].start;
      assert j >= i ==> segs[i].start <= segs[j].start;
    }
    if i == 0 {
      assert Lowest(all, segs[0]);
    } else {
      ConsecutiveAreNext(segs, i);
    }
  }

  /** Consecutive segments have consecutive indices. */
  lemma NextIndex(segs: seq<Segment>, a: Segment, b: Segment) returns (j: nat)
    requires InOrder(segs) && Next(SetOf(segs), a, b)
    ensures j + 1 < |segs| && segs[j] == a && segs[j + 1] == b
  {
    j :| 0 <= j < |segs| && segs[j] == a;
    var k :| 0 <= k < |segs| && segs[k] == b;
    assert segs[j + 1] in SetOf(segs);
  }

  lemma GapNotBelow(segs: seq<Segment>, i: nat, n: nat, a: Segment)
    requires InOrder(segs) && 0 < i < |segs| && GapAfter(SetOf(segs), n, a)
    requires forall j | 0 <= j < i - 1 :: segs[j].end + n > segs[j + 1].start
    ensures segs[i - 1].end <= a.end
  {
    var b :| Next(SetOf(segs), a, b) && a.end + n <= b.start;
    var j := NextIndex(segs, a, b);
    assert j > i - 1 ==> segs[i - 1].end <= segs[j].start;
  }

  lemma ConsecutiveAreNext(segs: seq<Segment>, i: nat)
    requires InOrder(segs) && 0 < i < |segs|
    ensures Next(SetOf(segs), segs[i - 1], segs[i])
  {
    forall t | t in SetOf(segs) ensures t.start <= segs[i - 1].start || segs[i].start <= t.start {
      var j :| 0 <= j < |segs| && segs[j] == t;
      assert j < i ==> j == i - 1 || segs[j].end <= segs[i - 1].start;
      assert j >= i ==> segs[i].start <= segs[j].start;
    }
  }

  lemma FirstIsLowest(segs: seq<Segment>, s: Segment)
    requires InOrder(segs) && Lowest(SetOf(segs), s)
    ensures |segs| > 0 && s.start == segs[0].start
  {
    assert segs[0] in SetOf(segs);
  }

  lemma GapIsFirst(segs: seq<Segment>, i: nat, from: nat, n: nat)
    requires InOrder(segs) && i < |segs|
    requires (if i == 0 then from else segs[i - 1].end) + n <= segs[i].start
    requires i > 0 ==> from + n > segs[0].start
    requires forall j | 0 <= j < i - 1 :: segs[j].end + n > segs[j + 1].start
    ensures FirstFit(SetOf(segs), from, n, if i == 0 then from else segs[i - 1].end)
  {
    forall s | Lowest(SetOf(segs), s) ensures s.start == segs[0].start { FirstIsLowest(segs, s); }
    if i > 0 {
      ConsecutiveAreNext(segs, i);
      assert GapAfter(SetOf(segs), n, segs[i - 1]);
      forall a | GapAfter(SetOf(segs), n, a) ensures segs[i - 1].end <= a.end { GapNotBelow(segs, i, n, a); }
    }
  }

  lemma NoGapFits(segs: seq<Segment>, from: nat, n: nat)
    requires InOrder(segs)
    requires |segs| > 0 ==> from + n > segs[0].start
    requires forall j | 0 <= j < |segs| - 1 :: segs[j].end + n > segs[j + 1].start
    ensures NoRoom(SetOf(segs), from, n)
  {
    var all := SetOf(segs);
    forall s | Lowest(all, s) ensures from + n > s.start {
      assert segs[0] in all;
    }
    forall a, b | Next(all, a, b) ensures a.end + n > b.start {
      var i :| 0 <= i < |segs| && segs[i] == a;
      var j :| 0 <= j < |segs| && segs[j] == b;
      assert segs[i + 1] in all && segs[i].end + n > segs[i + 1].start;
    }
  }
}
