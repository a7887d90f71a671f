/**
 What the operations on an address space mean, page by page, and how they are reached one area at a time.
 */
module AddressSpace {
  import opened Options
  import opened Tiling
  import opened MapAreas
  import opened FreeSpace

  /** `over` lists the areas that overlap [start, end), once each; `keys` are their starts. */
  ghost predicate Taken(owned: Owned, start: nat, end: nat, over: seq<Area>, keys: set<nat>) {
    && (forall i | 0 <= i < |over| :: over[i].vpn in keys && over[i].vpn in owned && owned[over[i].vpn] == over[i])
    && (forall i, j | 0 <= i < j < |over| :: over[i].vpn != over[j].vpn)
    && (forall k | k in keys :: k in owned && Overlaps(owned[k], start, end) && owned[k] in over)
    && (forall k | k in owned && k !in keys :: !Overlaps(owned[k], start, end))
  }

  lemma HasMin(ks: set<nat>) returns (k: nat)
    requires ks != {}
    ensures k in ks && forall j | j in ks :: k <= j
    decreases ks
  {
    k :| k in ks;
    var others := ks - {k};
    assert ks == {k} + others;
    if others != {} {
      var m := HasMin(others);
      if m < k { k := m; }
    }
  }

  /** A System V segment attached at page `vpn`: `n` frames from `first` on. */
  datatype Attached = Attached(vpn: nat, first: Frame, n: nat, flags: Flags)

  function AttachedEntries(a: Attached): map<nat, Pte> {
    map p | a.vpn <= p < a.vpn + a.n && InRange(p, a.vpn, a.n) :: Mapped(a.first + (p - a.vpn), a.flags)
  }

  /** Page table entries that belong to no area. */
  function Foreign(kernel: map<nat, Pte>, attached: seq<Attached>): map<nat, Pte> {
    if attached == [] then kernel
    else Foreign(kernel, attached[..|attached| - 1]) + AttachedEntries(attached[|attached| - 1])
  }

  /** The page table shows page `p` as its area has it, and foreign pages as they were mapped. */
  ghost predicate EntryOk(entries: map<nat, Pte>, owned: Owned, home: Home, foreign: map<nat, Pte>, p: nat)
    requires Tiled(owned, home)
  {
    if p in home then p !in foreign && p in entries && entries[p] == PteOf(View(owned, home, p))
    else (p in entries <==> p in foreign) && (p in foreign ==> entries[p] == foreign[p])
  }

  ghost predicate TableOk(entries: map<nat, Pte>, owned: Owned, home: Home, foreign: map<nat, Pte>)
    requires Tiled(owned, home)
  {
    forall p: nat {:trigger EntryOk(entries, owned, home, foreign, p)} :: EntryOk(entries, owned, home, foreign, p)
  }

  /** The address space as the simple map it denotes. */
  ghost function Pages(owned: Owned, home: Home): map<nat, PageView>
    requires Tiled(owned, home)
  {
    map p | p in home :: View(owned, home, p)
  }

  predicate Overlaps(a: Area, start: nat, end: nat) {
    (a.vpn <= start && start < a.End()) || (start <= a.vpn && a.vpn < end)
  }

  predicate ContainedIn(a: Area, start: nat, end: nat) {
    start <= a.vpn && a.End() <= end
  }

  predicate StrictlyContains(a: Area, start: nat, end: nat) {
    a.vpn < start && end < a.End()
  }

  /** The page table lost the pages of `a` in [start, end) and nothing else. */
  ghost predicate PagesDropped(e0: map<nat, Pte>, e1: map<nat, Pte>, a: Area, start: nat, end: nat) {
    && (forall p: nat :: p in e1 <==> p in e0 && !(a.Covers(p) && start <= p < end))
    && (forall p | p in e1 :: e1[p] == e0[p])
  }

  // ---------------------------------------------------------------- what removing and protecting a range mean

  /** Page `p` while the areas keyed by `todo` are still to be processed. */
  ghost predicate PunchedAt(owned0: Owned, home0: Home, owned: Owned, home: Home, start: nat, end: nat, todo: set<nat>, p: nat)
    requires Tiled(owned0, home0) && Tiled(owned, home)
  {
    && (p in home <==> p in home0 && home0[p] !in todo && !(start <= p < end))
    && (p in home ==> View(owned, home, p) == View(owned0, home0, p))
  }

  ghost predicate UnmappedAt(e0: map<nat, Pte>, e1: map<nat, Pte>, home0: Home, start: nat, end: nat, todo: set<nat>, p: nat) {
    && (p in e1 <==> p in e0 && !(p in home0 && home0[p] !in todo && start <= p < end))
    && (p in e1 ==> e1[p] == e0[p])
  }

  /** The page table lost exactly the entries of the owned pages in [start, end). */
  ghost predicate RangeGone(e0: map<nat, Pte>, e1: map<nat, Pte>, home0: Home, start: nat, end: nat) {
    forall p: nat :: (p in e1 <==> p in e0 && !(p in home0 && start <= p < end)) && (p in e1 ==> e1[p] == e0[p])
  }

  ghost predicate Punched(owned0: Owned, home0: Home, e0: map<nat, Pte>, owned: Owned, home: Home, e1: map<nat, Pte>,
                          start: nat, end: nat, todo: set<nat>)
    requires Tiled(owned0, home0)
  {
    && Tiled(owned, home)
    && (forall p: nat {:trigger PunchedAt(owned0, home0, owned, home, start, end, todo, p)} ::
          PunchedAt(owned0, home0, owned, home, start, end, todo, p))
    && (forall p: nat {:trigger UnmappedAt(e0, e1, home0, start, end, todo, p)} ::
          UnmappedAt(e0, e1, home0, start, end, todo, p))
  }

  ghost predicate ProtectedAt(owned0: Owned, home0: Home, owned: Owned, home: Home, start: nat, end: nat, flags: Flags,
                              todo: set<nat>, p: nat)
    requires Tiled(owned0, home0) && Tiled(owned, home)
  {
    && (p in home <==> p in home0 && home0[p] !in todo)
    && (p in home ==>
          View(owned, home, p) ==
            if start <= p < end then View(owned0, home0, p).(flags := flags) else View(owned0, home0, p))
  }

  ghost predicate FlaggedAt(e0: map<nat, Pte>, e1: map<nat, Pte>, home0: Home, start: nat, end: nat, flags: Flags,
                            todo: set<nat>, p: nat) {
    && (p in e1 <==> p in e0)
    && (p in e1 ==>
          e1[p] == if p in home0 && home0[p] !in todo && start <= p < end then WithFlags(e0[p], flags) else e0[p])
  }

  /** The entries of the pages of `a` in [start, end) have new flags. */
  ghost predicate FlagsSet(e: map<nat, Pte>, e1: map<nat, Pte>, a: Area, start: nat, end: nat, flags: Flags) {
    && e1.Keys == e.Keys
    && forall p: nat | p in e1 :: e1[p] == if a.Covers(p) && start <= p < end then WithFlags(e[p], flags) else e[p]
  }

  ghost predicate Protected(owned0: Owned, home0: Home, e0: map<nat, Pte>, owned: Owned, home: Home, e1: map<nat, Pte>,
                            start: nat, end: nat, flags: Flags, todo: set<nat>)
    requires Tiled(owned0, home0)
  {
    && Tiled(owned, home)
    && (forall p: nat {:trigger ProtectedAt(owned0, home0, owned, home, start, end, flags, todo, p)} ::
          ProtectedAt(owned0, home0, owned, home, start, end, flags, todo, p))
    && (forall p: nat {:trigger FlaggedAt(e0, e1, home0, start, end, flags, todo, p)} ::
          FlaggedAt(e0, e1, home0, start, end, flags, todo, p))
  }

  ghost function KeysFrom(over: seq<Area>, i: nat): set<nat> {
    set j | i <= j < |over| :: over[j].vpn
  }

  lemma PunchStart(owned: Owned, home: Home, e: map<nat, Pte>, start: nat, end: nat, over: seq<Area>, keys: set<nat>)
    requires Tiled(owned, home) && Taken(owned, start, end, over, keys)
    ensures KeysFrom(over, 0) == keys
    ensures Punched(owned, home, e, owned - keys, Without(home, keys), e, start, end, keys)
  {
    RemoveAreas(owned, home, keys);
    forall k | k in keys ensures k in KeysFrom(over, 0) { assert Keyed(owned, k); }
    forall p | p in home && home[p] !in keys ensures !(start <= p < end) {
      assert Homed(owned, home, p);
    }
  }

  /** Putting back what remains of one more area. */
  lemma PunchNext(owned0: Owned, home0: Home, e0: map<nat, Pte>, owned: Owned, home: Home, e: map<nat, Pte>,
                  owned1: Owned, home1: Home, e1: map<nat, Pte>, start: nat, end: nat, todo: set<nat>, k: nat)
    requires Tiled(owned0, home0) && k in owned0 && k in todo
    requires Punched(owned0, home0, e0, owned, home, e, start, end, todo)
    requires Puts(owned, home, owned1, home1, Outside(owned0[k], start, end))
    requires forall p: nat :: p in e1 <==> p in e && !(owned0[k].Covers(p) && start <= p < end)
    requires forall p | p in e1 :: e1[p] == e[p]
    ensures Punched(owned0, home0, e0, owned1, home1, e1, start, end, todo - {k})
  {
    forall p: nat | p in home0 ensures owned0[k].Covers(p) <==> home0[p] == k {
      assert Homed(owned0, home0, p) && Fills(owned0, home0, k);
    }
    assert Fills(owned0, home0, k);
    forall p: nat ensures PunchedAt(owned0, home0, owned1, home1, start, end, todo - {k}, p)
                       && UnmappedAt(e0, e1, home0, start, end, todo - {k}, p) {
      assert PunchedAt(owned0, home0, owned, home, start, end, todo, p);
      assert UnmappedAt(e0, e, home0, start, end, todo, p);
      assert PutAt(owned, home, owned1, home1, Outside(owned0[k], start, end), p);
    }
  }

  /** The page map without the pages of [start, end). */
  ghost function WithoutRange(pages: map<nat, PageView>, start: nat, end: nat): map<nat, PageView> {
    map p | p in pages && !(start <= p < end) :: pages[p]
  }

  function PagesFor(size: nat): nat {
    (size + PAGE_SIZE - 1) / PAGE_SIZE
  }

  /** Page `p` meets the `size` bytes from the start of page `start` on. */
  predicate InBytes(p: nat, start: nat, size: nat) {
    start <= p && p * PAGE_SIZE < start * PAGE_SIZE + size
  }

  ghost function WithoutBytes(pages: map<nat, PageView>, start: nat, size: nat): map<nat, PageView> {
    map p | p in pages && !InBytes(p, start, size) :: pages[p]
  }

  lemma BytesArePages(pages: map<nat, PageView>, start: nat, size: nat)
    ensures forall p: nat :: InBytes(p, start, size) <==> start <= p < start + PagesFor(size)
    ensures WithoutBytes(pages, start, size) == WithoutRange(pages, start, start + PagesFor(size))
  {
  }

  lemma PunchEnd(owned0: Owned, home0: Home, e0: map<nat, Pte>, owned: Owned, home: Home, e: map<nat, Pte>,
                 start: nat, end: nat, foreign: map<nat, Pte>)
    requires Tiled(owned0, home0) && TableOk(e0, owned0, home0, foreign)
    requires Punched(owned0, home0, e0, owned, home, e, start, end, {})
    ensures TableOk(e, owned, home, foreign) && home.Keys <= home0.Keys
    ensures RangeGone(e0, e, home0, start, end)
    ensures Pages(owned, home) == WithoutRange(Pages(owned0, home0), start, end)
  {
    forall p: nat ensures (p in home <==> p in home0 && !(start <= p < end)) &&
                          (p in home ==> View(owned, home, p) == View(owned0, home0, p)) {
      assert PunchedAt(owned0, home0, owned, home, start, end, {}, p);
    }
    forall p: nat ensures (p in e <==> p in e0 && !(p in home0 && start <= p < end)) && (p in e ==> e[p] == e0[p]) {
      assert UnmappedAt(e0, e, home0, start, end, {}, p);
    }
    forall p: nat ensures EntryOk(e, owned, home, foreign, p) {
      assert EntryOk(e0, owned0, home0, foreign, p);
      assert PunchedAt(owned0, home0, owned, home, start, end, {}, p);
      assert UnmappedAt(e0, e, home0, start, end, {}, p);
    }
  }

  /** Before it is processed, an area in `todo` has none of its pages in `home` and all in the page table. */
  lemma TodoPages(owned0: Owned, home0: Home, e0: map<nat, Pte>, owned: Owned, home: Home, e: map<nat, Pte>,
                  start: nat, end: nat, todo: set<nat>, foreign: map<nat, Pte>, k: nat)
    requires Tiled(owned0, home0) && TableOk(e0, owned0, home0, foreign) && k in owned0 && k in todo
    requires Punched(owned0, home0, e0, owned, home, e, start, end, todo)
    ensures forall p | p in Content(owned0[k]) :: p !in home && p in e
  {
    assert Fills(owned0, home0, k);
    forall p: nat | owned0[k].Covers(p) ensures p !in home && p in e {
      assert EntryOk(e0, owned0, home0, foreign, p);
      assert PunchedAt(owned0, home0, owned, home, start, end, todo, p);
      assert UnmappedAt(e0, e, home0, start, end, todo, p);
    }
  }

  lemma ProtectStart(owned: Owned, home: Home, e: map<nat, Pte>, start: nat, end: nat, flags: Flags,
                     over: seq<Area>, keys: set<nat>)
    requires Tiled(owned, home) && Taken(owned, start, end, over, keys)
    ensures KeysFrom(over, 0) == keys
    ensures Protected(owned, home, e, owned - keys, Without(home, keys), e, start, end, flags, keys)
  {
    PunchStart(owned, home, e, start, end, over, keys);
    forall p: nat ensures ProtectedAt(owned, home, owned - keys, Without(home, keys), start, end, flags, keys, p)
                       && FlaggedAt(e, e, home, start, end, flags, keys, p) {
      assert PunchedAt(owned, home, owned - keys, Without(home, keys), start, end, keys, p);
    }
  }

  lemma ProtectNext(owned0: Owned, home0: Home, e0: map<nat, Pte>, owned: Owned, home: Home, e: map<nat, Pte>,
                    owned1: Owned, home1: Home, e1: map<nat, Pte>, start: nat, end: nat, flags: Flags, todo: set<nat>, k: nat)
    requires Tiled(owned0, home0) && k in owned0 && k in todo
    requires Protected(owned0, home0, e0, owned, home, e, start, end, flags, todo)
    requires Puts(owned, home, owned1, home1, Reflagged(owned0[k], start, end, flags))
    requires FlagsSet(e, e1, owned0[k], start, end, flags)
    ensures Protected(owned0, home0, e0, owned1, home1, e1, start, end, flags, todo - {k})
  {
    forall p: nat | p in home0 ensures owned0[k].Covers(p) <==> home0[p] == k {
      assert Homed(owned0, home0, p) && Fills(owned0, home0, k);
    }
    assert Fills(owned0, home0, k);
    forall p: nat ensures ProtectedAt(owned0, home0, owned1, home1, start, end, flags, todo - {k}, p)
                       && FlaggedAt(e0, e1, home0, start, end, flags, todo - {k}, p) {
      assert ProtectedAt(owned0, home0, owned, home, start, end, flags, todo, p);
      assert FlaggedAt(e0, e, home0, start, end, flags, todo, p);
      assert PutAt(owned, home, owned1, home1, Reflagged(owned0[k], start, end, flags), p);
    }
  }

  /** The page map with new flags on the mapped pages of [start, end). */
  ghost function WithFlagsIn(pages: map<nat, PageView>, start: nat, end: nat, flags: Flags): map<nat, PageView> {
    map p | p in pages :: if start <= p < end then pages[p].(flags := flags) else pages[p]
  }

  lemma ProtectEnd(owned0: Owned, home0: Home, e0: map<nat, Pte>, owned: Owned, home: Home, e: map<nat, Pte>,
                   start: nat, end: nat, flags: Flags, foreign: map<nat, Pte>)
    requires Tiled(owned0, home0) && TableOk(e0, owned0, home0, foreign)
    requires Protected(owned0, home0, e0, owned, home, e, start, end, flags, {})
    ensures TableOk(e, owned, home, foreign) && home.Keys == home0.Keys
    ensures Pages(owned, home) == WithFlagsIn(Pages(owned0, home0), start, end, flags)
  {
    forall p: nat ensures (p in home <==> p in home0)
                       && (p in home ==>
                             View(owned, home, p) ==
                               if start <= p < end then View(owned0, home0, p).(flags := flags) else View(owned0, home0, p)) {
      assert ProtectedAt(owned0, home0, owned, home, start, end, flags, {}, p);
    }
    forall p: nat ensures EntryOk(e, owned, home, foreign, p) {
      assert EntryOk(e0, owned0, home0, foreign, p);
      assert ProtectedAt(owned0, home0, owned, home, start, end, flags, {}, p);
      assert FlaggedAt(e0, e, home0, start, end, flags, {}, p);
    }
  }

  lemma TodoPagesToProtect(owned0: Owned, home0: Home, e0: map<nat, Pte>, owned: Owned, home: Home, e: map<nat, Pte>,
                           start: nat, end: nat, flags: Flags, todo: set<nat>, foreign: map<nat, Pte>, k: nat)
    requires Tiled(owned0, home0) && TableOk(e0, owned0, home0, foreign) && k in owned0 && k in todo
    requires Protected(owned0, home0, e0, owned, home, e, start, end, flags, todo)
    ensures forall p | p in Content(owned0[k]) :: p !in home && p in e
  {
    assert Fills(owned0, home0, k);
    forall p: nat | owned0[k].Covers(p) ensures p !in home && p in e {
      assert EntryOk(e0, owned0, home0, foreign, p);
      assert ProtectedAt(owned0, home0, owned, home, start, end, flags, todo, p);
      assert FlaggedAt(e0, e, home0, start, end, flags, todo, p);
    }
  }

  /** An empty range overlaps the area that covers its start, and no other. */
  lemma EmptyRangeOverlaps(owned: Owned, home: Home, start: nat, over: seq<Area>, keys: set<nat>)
    requires Tiled(owned, home) && Taken(owned, start, start, over, keys)
    ensures over != [] <==> start in home
    ensures start in home ==> home[start] in owned && over == [owned[home[start]]] && keys == {home[start]} && over[0].Covers(start)
    ensures start in owned ==> start in home && home[start] == start
  {
    if start in owned { assert Keyed(owned, start) && Fills(owned, home, start); }
    assert over != [] ==> over[0].vpn in keys;
    forall k | k in keys ensures start in home && home[start] == k { assert Fills(owned, home, k) && Keyed(owned, k); }
    if start in home {
      assert Homed(owned, home, start) && Overlaps(owned[home[start]], start, start);
      forall i | 0 <= i < |over| ensures over[i] == owned[home[start]] { assert over[i].vpn in keys; }
      assert over[|over| - 1].vpn == over[0].vpn;
    }
  }

  /** The area that began at `start` has lost all its pages. */
  ghost predicate Emptied(owned0: Owned, e0: map<nat, Pte>, owned: Owned, e: map<nat, Pte>, start: nat) {
    && start in owned0 && owned == owned0[start := owned0[start].(pages := [])]
    && forall p: nat :: p in e <==> p in e0 && !owned0[start].Covers(p)
  }

  /** After `i` of the overlapping areas. */
  ghost predicate SplitSoFar(owned0: Owned, home0: Home, e0: map<nat, Pte>, owned: Owned, home: Home, e: map<nat, Pte>,
                             start: nat, end: nat, over: seq<Area>, i: nat)
    requires Tiled(owned0, home0)
  {
    if start < end || start !in owned0 || i == 0 then
      && Punched(owned0, home0, e0, owned, home, e, start, end, KeysFrom(over, i))
      && (i == 0 ==> owned == owned0 - KeysFrom(over, 0) && e == e0)
    else Emptied(owned0, e0, owned, e, start)
  }

  // ---------------------------------------------------------------- segments in use

  function AreaSegment(a: Area): Segment {
    Segment(a.vpn, a.End())
  }

  function AttachedSegment(a: Attached): Segment {
    Segment(a.vpn, a.vpn + a.n)
  }

  /** Attached segments are non-empty, apart from the kernel's pages, and do not overlap each other. */
  ghost predicate AttachedOk(attached: seq<Attached>, kernel: map<nat, Pte>) {
    && (forall i | 0 <= i < |attached| :: attached[i].n > 0 && forall p | InRange(p, attached[i].vpn, attached[i].n) :: p !in kernel)
    && (forall i, j | 0 <= i < j < |attached| :: Apart(AttachedSegment(attached[i]), AttachedSegment(attached[j])))
  }

  ghost function SegmentsInUse(owned: Owned, attached: seq<Attached>): set<Segment> {
    (set k | k in owned :: AreaSegment(owned[k])) + (set i | 0 <= i < |attached| :: AttachedSegment(attached[i]))
  }

  lemma {:induction false} ForeignPages(kernel: map<nat, Pte>, attached: seq<Attached>, p: nat)
    ensures p in Foreign(kernel, attached) <==>
      p in kernel || exists i :: 0 <= i < |attached| && InRange(p, attached[i].vpn, attached[i].n)
  {
    if attached != [] {
      var last := |attached| - 1;
      ForeignPages(kernel, attached[..last], p);
      if i :| 0 <= i < |attached| && InRange(p, attached[i].vpn, attached[i].n) {
        assert i < last ==> attached[..last][i] == attached[i];
      }
      if j :| 0 <= j < last && InRange(p, attached[..last][j].vpn, attached[..last][j].n) {
        assert attached[j] == attached[..last][j];
      }
    }
  }

  lemma AreasApart(owned: Owned, home: Home, j: nat, k: nat)
    requires Tiled(owned, home) && j in owned && k in owned && j != k
    ensures Apart(AreaSegment(owned[j]), AreaSegment(owned[k]))
  {
    assert Keyed(owned, j) && Keyed(owned, k);
    var p := if j < k then k else j;
    if owned[j].Covers(p) && owned[k].Covers(p) { AreasDisjoint(owned, home, j, k, p); }
  }

  lemma AreaApartFromAttached(entries: map<nat, Pte>, owned: Owned, home: Home, kernel: map<nat, Pte>, attached: seq<Attached>,
                              k: nat, i: nat)
    requires Tiled(owned, home) && TableOk(entries, owned, home, Foreign(kernel, attached))
    requires k in owned && i < |attached| && attached[i].n > 0
    ensures Apart(AreaSegment(owned[k]), AttachedSegment(attached[i]))
  {
    assert Keyed(owned, k) && Fills(owned, home, k);
    var p := if k < attached[i].vpn then attached[i].vpn else k;
    if owned[k].Covers(p) {
      assert EntryOk(entries, owned, home, Foreign(kernel, attached), p);
      ForeignPages(kernel, attached, p);
    }
  }

  /** A page of a range apart from every segment in use is mapped by the kernel or by nobody. */
  lemma FreePage(entries: map<nat, Pte>, owned: Owned, home: Home, kernel: map<nat, Pte>, attached: seq<Attached>,
                 start: nat, n: nat, p: nat)
    requires Tiled(owned, home) && TableOk(entries, owned, home, Foreign(kernel, attached))
    requires forall s | s in SegmentsInUse(owned, attached) :: Apart(s, Segment(start, start + n))
    requires InRange(p, start, n)
    ensures (p in entries <==> p in kernel) && p !in home
  {
    assert EntryOk(entries, owned, home, Foreign(kernel, attached), p);
    ForeignPages(kernel, attached, p);
    assert p in home ==> Homed(owned, home, p) && AreaSegment(owned[home[p]]) in SegmentsInUse(owned, attached);
    assert forall i | 0 <= i < |attached| :: AttachedSegment(attached[i]) in SegmentsInUse(owned, attached);
  }

  /** Where no area is, the page table shows foreign pages only. */
  lemma ForeignRange(entries: map<nat, Pte>, owned: Owned, home: Home, foreign: map<nat, Pte>, start: nat, n: nat)
    requires Tiled(owned, home) && TableOk(entries, owned, home, foreign)
    requires forall p | InRange(p, start, n) :: p !in Pages(owned, home)
    ensures forall p | InRange(p, start, n) :: p in entries <==> p in foreign
  {
    forall p | InRange(p, start, n) ensures p in entries <==> p in foreign { assert EntryOk(entries, owned, home, foreign, p); }
  }

  lemma HomeNotKernel(entries: map<nat, Pte>, owned: Owned, home: Home, kernel: map<nat, Pte>, attached: seq<Attached>)
    requires Tiled(owned, home) && TableOk(entries, owned, home, Foreign(kernel, attached))
    ensures forall p | p in home :: p !in kernel
  {
    forall p | p in home ensures p !in kernel {
      assert EntryOk(entries, owned, home, Foreign(kernel, attached), p);
      ForeignPages(kernel, attached, p);
    }
  }

  // ---------------------------------------------------------------- mapping new pages

  function LazyArea(start: nat, n: nat, shared: bool, flags: Flags, backend: Option<Backend>): Area {
    Area(seq(n, _ => None), start, shared, flags, backend)
  }

  /** What a new page of a mapping of `backend` is: lazy, with the file offset 4096 * i bytes further on. */
  ghost predicate NewPage(v: PageView, shared: bool, flags: Flags, backend: Option<Backend>, i: nat) {
    && v.slot == None && v.shared == shared && v.flags == flags
    && match backend
       case None => v.source == None
       case Some(b) => v.source == Some(Backend(b.file, b.offset + i * 4096))
  }

  ghost predicate NewPageAt(owned: Owned, home: Home, at: nat, shared: bool, flags: Flags, backend: Option<Backend>, i: nat)
    requires Tiled(owned, home)
  {
    at + i in home && NewPage(View(owned, home, at + i), shared, flags, backend, i)
  }

  /** The `n` pages from `at` on are such pages. */
  ghost predicate NewPages(owned: Owned, home: Home, at: nat, n: nat, shared: bool, flags: Flags, backend: Option<Backend>) {
    && Tiled(owned, home)
    && forall i: nat {:trigger NewPageAt(owned, home, at, shared, flags, backend, i)} | i < n ::
         NewPageAt(owned, home, at, shared, flags, backend, i)
  }

  lemma LazyAreaIsNew(owned: Owned, home: Home, pages: map<nat, PageView>,
                      at: nat, n: nat, shared: bool, flags: Flags, backend: Option<Backend>)
    requires Tiled(owned, home) && Pages(owned, home) == pages + Content(LazyArea(at, n, shared, flags, backend))
    ensures NewPages(owned, home, at, n, shared, flags, backend)
  {
    var a := LazyArea(at, n, shared, flags, backend);
    forall i: nat | i < n ensures NewPageAt(owned, home, at, shared, flags, backend, i) {
      assert a.Covers(at + i) && at + i in Content(a);
      assert at + i in Pages(owned, home) && Pages(owned, home)[at + i] == Content(a)[at + i];
    }
  }

  /** A new page, once it shows its own source, shows the file of the mapping at its place. */
  lemma NewPageShows(v: PageView, shared: bool, flags: Flags, backend: Option<Backend>, i: nat, page: Page, files: Files)
    requires NewPage(v, shared, flags, backend, i) && ShowsFile(page, files, v.source, 0)
    ensures ShowsFile(page, files, backend, i)
  {
  }

  /** Dropping the pages first and then writing them is writing them. */
  lemma DropThenWrite(m: map<nat, PageView>, m1: map<nat, PageView>, start: nat, n: nat, a: Area)
    requires m1 == WithoutRange(m, start, start + n)
    requires a.vpn == start && |a.pages| == n
    ensures m1 + Content(a) == m + Content(a)
    ensures forall p | InRange(p, start, n) :: p !in m1
  {
    forall p: nat ensures p in Content(a) <==> start <= p < start + n {
      assert a.Covers(p) <==> start <= p < start + n;
    }
  }

  lemma PutsPages(owned: Owned, home: Home, owned1: Owned, home1: Home, v: map<nat, PageView>)
    requires Puts(owned, home, owned1, home1, v)
    ensures Pages(owned1, home1) == Pages(owned, home) + v
  {
    forall p: nat ensures (p in home1 <==> p in home || p in v) &&
        (p in home1 ==> View(owned1, home1, p) == if p in v then v[p] else View(owned, home, p)) {
      assert PutAt(owned, home, owned1, home1, v, p);
    }
  }

  /** New pages in the areas and in the page table. */
  lemma NewPagesKeepTable(owned: Owned, home: Home, e: map<nat, Pte>, owned1: Owned, home1: Home, e1: map<nat, Pte>,
                          a: Area, foreign: map<nat, Pte>)
    requires Puts(owned, home, owned1, home1, Content(a)) && TableOk(e, owned, home, foreign)
    requires forall p | p in Content(a) :: p !in e
    requires Agrees(e1, a) && SameOutside(e, e1, a)
    ensures TableOk(e1, owned1, home1, foreign)
  {
    forall p: nat ensures EntryOk(e1, owned1, home1, foreign, p) {
      assert EntryOk(e, owned, home, foreign, p);
      assert PutAt(owned, home, owned1, home1, Content(a), p);
    }
  }

  lemma AttachKeepsTable(e: map<nat, Pte>, e1: map<nat, Pte>, owned: Owned, home: Home, kernel: map<nat, Pte>,
                         attached: seq<Attached>, a: Attached)
    requires Tiled(owned, home) && TableOk(e, owned, home, Foreign(kernel, attached))
    requires forall p | InRange(p, a.vpn, a.n) :: p !in e
    requires e1.Keys == e.Keys + set p | a.vpn <= p < a.vpn + a.n && InRange(p, a.vpn, a.n)
    requires forall p | p in e1 :: e1[p] == if InRange(p, a.vpn, a.n) then Mapped(a.first + (p - a.vpn), a.flags) else e[p]
    ensures TableOk(e1, owned, home, Foreign(kernel, attached + [a]))
  {
    assert (attached + [a])[..|attached|] == attached;
    var foreign := Foreign(kernel, attached + [a]);
    forall p: nat ensures EntryOk(e1, owned, home, foreign, p) {
      assert EntryOk(e, owned, home, Foreign(kernel, attached), p);
    }
  }

  /** A segment on unmapped pages is apart from every attached one. */
  lemma AttachKeepsApart(e: map<nat, Pte>, owned: Owned, home: Home, kernel: map<nat, Pte>, attached: seq<Attached>,
                         a: Attached)
    requires Tiled(owned, home) && TableOk(e, owned, home, Foreign(kernel, attached)) && AttachedOk(attached, kernel)
    requires a.n > 0 && forall p | InRange(p, a.vpn, a.n) :: p !in e
    ensures AttachedOk(attached + [a], kernel)
  {
    forall p | InRange(p, a.vpn, a.n) ensures p !in kernel {
      assert EntryOk(e, owned, home, Foreign(kernel, attached), p);
      ForeignPages(kernel, attached, p);
    }
    forall i | 0 <= i < |attached| ensures Apart(AttachedSegment(attached[i]), AttachedSegment(a)) {
      var p := if attached[i].vpn < a.vpn then a.vpn else attached[i].vpn;
      assert EntryOk(e, owned, home, Foreign(kernel, attached), p);
      ForeignPages(kernel, attached, p);
    }
  }

  /** A child with the same pages and the first `i` attached segments can attach the next one. */
  lemma AttachReady(e: map<nat, Pte>, owned: Owned, ec: map<nat, Pte>, oc: Owned, home: Home, kernel: map<nat, Pte>,
                    attached: seq<Attached>, i: nat)
    requires Tiled(owned, home) && TableOk(e, owned, home, Foreign(kernel, attached)) && i < |attached|
    requires Tiled(oc, home) && TableOk(ec, oc, home, Foreign(kernel, attached[..i]))
    requires AttachedOk(attached, kernel)
    ensures forall p | InRange(p, attached[i].vpn, attached[i].n) :: p !in ec
  {
    forall p | InRange(p, attached[i].vpn, attached[i].n) ensures p !in ec {
      ForeignPages(kernel, attached, p);
      ForeignPages(kernel, attached[..i], p);
      assert EntryOk(e, owned, home, Foreign(kernel, attached), p);
      assert EntryOk(ec, oc, home, Foreign(kernel, attached[..i]), p);
      assert forall j | 0 <= j < i :: attached[..i][j] == attached[j] && Apart(AttachedSegment(attached[j]), AttachedSegment(attached[i]));
    }
  }
}
