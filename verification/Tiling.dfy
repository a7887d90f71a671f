/**
 Areas of a process address space, and how they tile it.

 Addresses are page numbers: every start and end the code handles is 4K aligned.  A `home` map records,
 for every mapped page, the start of the area it lies in; it is the witness that areas do not overlap.
 */
module Tiling {

  import opened Options

  const PAGE_SIZE: nat := 4096

  type Frame = nat
  type FileId = nat

  datatype Flag = Read | Write | Execute | User | Device | Uncached
  type Flags = set<Flag>

  /** A file with the file offset of the first page of the area. */
  datatype Backend = Backend(file: FileId, offset: nat)

  datatype Area = Area(pages: seq<Option<Frame>>, vpn: nat, shared: bool, flags: Flags, backend: Option<Backend>) {
    function End(): nat {
      vpn + |pages|
    }

    predicate Covers(p: nat) {
      vpn <= p < End()
    }
  }

  /** What one page of the address space is. */
  datatype PageView = PageView(slot: Option<Frame>, flags: Flags, shared: bool, source: Option<Backend>)

  datatype Pte = Fault(flags: Flags) | Mapped(frame: Frame, flags: Flags)

  function Shift(b: Option<Backend>, pages: nat): Option<Backend> {
    match b
    case None => None
    case Some(f) => Some(Backend(f.file, f.offset + pages * PAGE_SIZE))
  }

  function PageAt(a: Area, p: nat): PageView
    requires a.Covers(p)
  {
    PageView(a.pages[p - a.vpn], a.flags, a.shared, Shift(a.backend, p - a.vpn))
  }

  function Entry(slot: Option<Frame>, flags: Flags): Pte {
    match slot
    case None => Fault(flags)
    case Some(f) => Mapped(f, flags)
  }

  function PteOf(v: PageView): Pte {
    Entry(v.slot, v.flags)
  }

  /** The part of `a` in [lo, hi), with its file offset moved along. */
  function Cut(a: Area, lo: nat, hi: nat): (c: Area)
    requires a.vpn <= lo <= hi <= a.End()
    ensures c.vpn == lo && c.End() == hi
    ensures forall p | lo <= p < hi :: PageAt(c, p) == PageAt(a, p)
  {
    Area(a.pages[lo - a.vpn..hi - a.vpn], lo, a.shared, a.flags, Shift(a.backend, lo - a.vpn))
  }

  // ---------------------------------------------------------------- tilings

  type Owned = map<nat, Area>
  type Home = map<nat, nat>

  predicate Keyed(owned: Owned, k: nat)
    requires k in owned
  {
    owned[k].vpn == k && |owned[k].pages| > 0
  }

  ghost predicate Fills(owned: Owned, home: Home, k: nat)
    requires k in owned
  {
    forall p | owned[k].Covers(p) :: p in home && home[p] == k
  }

  ghost predicate Homed(owned: Owned, home: Home, p: nat)
    requires p in home
  {
    home[p] in owned && owned[home[p]].Covers(p)
  }

  /** Areas are keyed by their start, non-empty, and tile exactly the pages in `home`. */
  ghost predicate Tiled(owned: Owned, home: Home) {
    && (forall k {:trigger Keyed(owned, k)} :: k in owned ==> Keyed(owned, k))
    && (forall k {:trigger Fills(owned, home, k)} :: k in owned ==> Fills(owned, home, k))
    && (forall p {:trigger Homed(owned, home, p)} :: p in home ==> Homed(owned, home, p))
  }

  ghost function View(owned: Owned, home: Home, p: nat): PageView
    requires Tiled(owned, home) && p in home
  {
    assert Homed(owned, home, p);
    PageAt(owned[home[p]], p)
  }

  /** The pages that keep a home when the areas keyed by `ks` are taken out. */
  ghost function Without(home: Home, ks: set<nat>): Home {
    map p | p in home && home[p] !in ks :: home[p]
  }

  ghost function Plus(home: Home, a: Area): Home {
    home + map p | a.vpn <= p < a.End() && a.Covers(p) :: a.vpn
  }

  lemma RemoveAreas(owned: Owned, home: Home, ks: set<nat>)
    requires Tiled(owned, home)
    ensures Tiled(owned - ks, Without(home, ks))
    ensures forall p | p in Without(home, ks) :: View(owned - ks, Without(home, ks), p) == View(owned, home, p)
  {
    var o1, h1 := owned - ks, Without(home, ks);
    forall j | j in o1 ensures Keyed(o1, j) && Fills(o1, h1, j) { assert Keyed(owned, j) && Fills(owned, home, j); }
    forall p | p in h1 ensures Homed(o1, h1, p) { assert Homed(owned, home, p); }
  }

  ghost function Content(a: Area): map<nat, PageView> {
    map p | a.vpn <= p < a.End() && a.Covers(p) :: PageAt(a, p)
  }

  ghost predicate PutAt(owned: Owned, home: Home, owned1: Owned, home1: Home, v: map<nat, PageView>, p: nat)
    requires Tiled(owned, home) && Tiled(owned1, home1)
  {
    && (p in home1 <==> p in home || p in v)
    && (p in home1 ==> View(owned1, home1, p) == if p in v then v[p] else View(owned, home, p))
  }

  /** The second tiling shows the pages of the first and those of `v`. */
  ghost predicate Puts(owned: Owned, home: Home, owned1: Owned, home1: Home, v: map<nat, PageView>) {
    && Tiled(owned, home) && Tiled(owned1, home1)
    && forall p: nat {:trigger PutAt(owned, home, owned1, home1, v, p)} :: PutAt(owned, home, owned1, home1, v, p)
  }

  lemma PutsThen(o0: Owned, h0: Home, o1: Owned, h1: Home, o2: Owned, h2: Home, v: map<nat, PageView>, w: map<nat, PageView>)
    requires Puts(o0, h0, o1, h1, v) && Puts(o1, h1, o2, h2, w)
    ensures Puts(o0, h0, o2, h2, v + w)
  {
    forall p: nat ensures PutAt(o0, h0, o2, h2, v + w, p) {
      assert PutAt(o0, h0, o1, h1, v, p) && PutAt(o1, h1, o2, h2, w, p);
    }
  }

  /** An area none of whose pages is mapped can be inserted: its key is free. */
  lemma InsertArea(owned: Owned, home: Home, a: Area)
    requires Tiled(owned, home) && |a.pages| > 0
    requires forall p | p in Content(a) :: p !in home
    ensures a.vpn !in owned
    ensures Puts(owned, home, owned[a.vpn := a], Plus(home, a), Content(a))
  {
    KeysMapped(owned, home);
    assert a.Covers(a.vpn) && a.vpn in Content(a);
    var o1, h1 := owned[a.vpn := a], Plus(home, a);
    forall j | j in o1 ensures Keyed(o1, j) && Fills(o1, h1, j) {
      if j != a.vpn { assert Keyed(owned, j) && Fills(owned, home, j); }
    }
    forall p | p in h1 ensures Homed(o1, h1, p) {
      if !a.Covers(p) { assert Homed(owned, home, p); }
    }
    forall p: nat ensures PutAt(owned, home, o1, h1, Content(a), p) { }
  }

  lemma KeysMapped(owned: Owned, home: Home)
    requires Tiled(owned, home)
    ensures forall k | k in owned :: k in home
  {
    forall k | k in owned ensures k in home { assert Keyed(owned, k) && Fills(owned, home, k) && owned[k].Covers(k); }
  }

  // ---------------------------------------------------------------- an area with a hole, or with new flags

  ghost function Outside(a: Area, start: nat, end: nat): map<nat, PageView> {
    map p | p in Content(a) && !(start <= p < end) :: PageAt(a, p)
  }

  ghost function Reflagged(a: Area, start: nat, end: nat, flags: Flags): map<nat, PageView> {
    map p | p in Content(a) :: if start <= p < end then PageAt(a, p).(flags := flags) else PageAt(a, p)
  }

  /** [start, end) lies in `a`: the two parts around it. */
  lemma OutsideIsTwoParts(a: Area, start: nat, end: nat)
    requires a.vpn <= start <= end <= a.End()
    ensures Content(Cut(a, a.vpn, start)).Keys !! Content(Cut(a, end, a.End())).Keys
    ensures Outside(a, start, end) == Content(Cut(a, end, a.End())) + Content(Cut(a, a.vpn, start))
  {
  }

  lemma OutsideIsRightPart(a: Area, start: nat, end: nat)
    requires start <= a.vpn <= end <= a.End()
    ensures Outside(a, start, end) == Content(Cut(a, end, a.End()))
  {
  }

  lemma OutsideIsLeftPart(a: Area, start: nat, end: nat)
    requires a.vpn <= start <= a.End() <= end
    ensures Outside(a, start, end) == Content(Cut(a, a.vpn, start))
  {
  }

  lemma CutPage(a: Area, lo: nat, hi: nat, flags: Flags, p: nat)
    requires a.vpn <= lo <= p < hi <= a.End()
    ensures a.Covers(p) && PageAt(Cut(a, lo, hi).(flags := flags), p) == PageAt(a, p).(flags := flags)
  {
    assert PageAt(Cut(a, lo, hi), p) == PageAt(a, p);
  }

  /** [lo, hi) is the part of [start, end) that lies in `a`. */
  lemma ReflaggedIsMidAndOutside(a: Area, start: nat, end: nat, lo: nat, hi: nat, flags: Flags)
    requires a.vpn <= lo <= hi <= a.End() && forall p: nat | a.Covers(p) :: start <= p < end <==> lo <= p < hi
    ensures var m := Cut(a, lo, hi).(flags := flags);
      && Content(m).Keys !! Outside(a, start, end).Keys
      && Reflagged(a, start, end, flags) == Content(m) + Outside(a, start, end)
  {
    var m := Cut(a, lo, hi).(flags := flags);
    forall p: nat ensures m.Covers(p) <==> lo <= p < hi {}
    forall p: nat | lo <= p < hi ensures a.Covers(p) && PageAt(m, p) == PageAt(a, p).(flags := flags) {
      CutPage(a, lo, hi, flags, p);
    }
  }

  lemma ReflaggedIsThreeParts(a: Area, start: nat, end: nat, flags: Flags)
    requires a.vpn <= start <= end <= a.End()
    ensures var l, m, r := Content(Cut(a, a.vpn, start)), Content(Cut(a, start, end).(flags := flags)), Content(Cut(a, end, a.End()));
      m.Keys !! r.Keys !! l.Keys && Reflagged(a, start, end, flags) == m + r + l
  {
    ReflaggedIsMidAndOutside(a, start, end, start, end, flags);
    OutsideIsTwoParts(a, start, end);
    var l, m, r := Content(Cut(a, a.vpn, start)), Content(Cut(a, start, end).(flags := flags)), Content(Cut(a, end, a.End()));
    Regroup(m, r, l);
  }

  lemma Regroup(x: map<nat, PageView>, y: map<nat, PageView>, z: map<nat, PageView>)
    ensures x + (y + z) == x + y + z
    ensures x.Keys !! y.Keys ==> x + y == y + x
  {
  }

  lemma ReflaggedLeftPart(a: Area, start: nat, end: nat, flags: Flags)
    requires start <= a.vpn <= end <= a.End()
    ensures var m, r := Content(Cut(a, a.vpn, end).(flags := flags)), Content(Cut(a, end, a.End()));
      m.Keys !! r.Keys && Reflagged(a, start, end, flags) == r + m
  {
    ReflaggedIsMidAndOutside(a, start, end, a.vpn, end, flags);
    OutsideIsRightPart(a, start, end);
    var m, r := Content(Cut(a, a.vpn, end).(flags := flags)), Content(Cut(a, end, a.End()));
    Regroup(m, r, map[]);
  }

  lemma ReflaggedRightPart(a: Area, start: nat, end: nat, flags: Flags)
    requires a.vpn <= start <= a.End() <= end
    ensures var l, m := Content(Cut(a, a.vpn, start)), Content(Cut(a, start, a.End()).(flags := flags));
      m.Keys !! l.Keys && Reflagged(a, start, end, flags) == m + l
  {
    ReflaggedIsMidAndOutside(a, start, end, start, a.End(), flags);
    OutsideIsLeftPart(a, start, end);
  }

  lemma ReflaggedWhole(a: Area, start: nat, end: nat, flags: Flags)
    requires start <= a.vpn && a.End() <= end
    ensures Reflagged(a, start, end, flags) == Content(a.(flags := flags))
  {
    forall p: nat | a.Covers(p) ensures PageAt(a.(flags := flags), p) == PageAt(a, p).(flags := flags) {}
  }

  /** Two areas of a tiling have no page in common. */
  lemma AreasDisjoint(owned: Owned, home: Home, j: nat, k: nat, p: nat)
    requires Tiled(owned, home) && j in owned && k in owned && owned[j].Covers(p) && owned[k].Covers(p)
    ensures j == k
  {
    assert Fills(owned, home, j) && Fills(owned, home, k);
  }
}
