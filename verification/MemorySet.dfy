/**
 The address space of a process: its areas, its page table, and the operations that drop, shrink, split,
 protect, map, fault in and fork them.
 */
module MemorySets {
  import opened Options
  import opened Scripts
  import opened Tiling
  import opened MapAreas
  import opened AddressSpace
  import opened FreeSpace
  import opened Fork
  import Isolation

  /** Areas are visited in the order of their keys. */
  method LeastKey(keys: set<nat>) returns (k: nat)
    requires keys != {}
    ensures k in keys && forall j | j in keys :: k <= j
  {
    ghost var least := HasMin(keys);
    k :| k in keys && forall j | j in keys :: k <= j;
  }

  /** The areas of `owned` are shared out between `rest`, `kept` and the overlapping ones. */
  ghost predicate Parted(owned: Owned, start: nat, end: nat, rest: Owned, over: seq<Area>, kept: Owned, keys: set<nat>) {
    && (forall k | k in rest :: k in owned && rest[k] == owned[k] && k !in kept && k !in keys)
    && (forall k | k in kept :: k in owned && kept[k] == owned[k] && k !in keys && !Overlaps(owned[k], start, end))
    && (forall k | k in owned :: k in rest || k in kept || k in keys)
    && (forall i | 0 <= i < |over| :: over[i].vpn in keys && over[i].vpn in owned && owned[over[i].vpn] == over[i])
    && (forall i, j | 0 <= i < j < |over| :: over[i].vpn != over[j].vpn)
    && (forall k | k in keys :: k in owned && Overlaps(owned[k], start, end) && owned[k] in over)
  }

  lemma PartedOver(owned: Owned, start: nat, end: nat, rest: Owned, over: seq<Area>, kept: Owned, keys: set<nat>, k: nat)
    requires Parted(owned, start, end, rest, over, kept, keys) && k in rest && rest[k].vpn == k && Overlaps(rest[k], start, end)
    ensures Parted(owned, start, end, rest - {k}, over + [rest[k]], kept, keys + {k})
  {
    var over1 := over + [rest[k]];
    forall j | j in keys + {k} ensures j in owned && Overlaps(owned[j], start, end) && owned[j] in over1 {
      if j == k { assert over1[|over|] == owned[k]; }
    }
  }

  lemma PartedKept(owned: Owned, start: nat, end: nat, rest: Owned, over: seq<Area>, kept: Owned, keys: set<nat>, k: nat)
    requires Parted(owned, start, end, rest, over, kept, keys) && k in rest && !Overlaps(rest[k], start, end)
    ensures Parted(owned, start, end, rest - {k}, over, kept[k := rest[k]], keys)
  {
  }

  /** Pops the areas in order of address into those that overlap [start, end) and those that do not. */
  method Partition(owned: Owned, ghost home: Home, start: nat, end: nat)
    returns (over: seq<Area>, kept: Owned, ghost keys: set<nat>)
    requires Tiled(owned, home)
    ensures Taken(owned, start, end, over, keys) && kept == owned - keys
  {
    over, kept, keys := [], map[], {};
    var rest := owned;
    while rest != map[]
      invariant Parted(owned, start, end, rest, over, kept, keys)
      decreases |rest|
    {
      var k := LeastKey(rest.Keys);
      var area := rest[k];
      assert Keyed(owned, k);
      if Overlaps(area, start, end) {
        PartedOver(owned, start, end, rest, over, kept, keys, k);
        over, keys := over + [area], keys + {k};
      } else {
        PartedKept(owned, start, end, rest, over, kept, keys, k);
        kept := kept[k := area];
      }
      rest := rest - {k};
    }
    assert kept == owned - keys;
  }

  /** A call on an address space; sizes are bytes, but pages to protect. */
  datatype Call =
    | CallMmap(start: nat, size: nat, flags: Flags, shared: bool, fixed: bool, backend: Option<Backend>)
    | CallMunmap(start: nat, size: nat)
    | CallMprotect(start: nat, size: nat, flags: Flags)
    | CallFault(page: nat, access: Flags)

  /** What a call that did not stop did: mapped a block, changed mappings as told, loaded a page, or nothing. */
  datatype Answer = Placed(at: nat) | Changed | Loaded(frame: Frame) | Refused

  /** The pages after a call. */
  ghost function Effect(pages: map<nat, PageView>, c: Call, answer: Answer): map<nat, PageView> {
    match answer
    case Placed(at) =>
      if !c.CallMmap? then pages else pages + Content(LazyArea(at, PagesFor(c.size), c.shared, c.flags, c.backend))
    case Changed =>
      if c.CallMunmap? then WithoutBytes(pages, c.start, c.size)
      else if c.CallMprotect? then WithFlagsIn(pages, c.start, c.start + c.size, c.flags)
      else pages
    case Loaded(f) =>
      if !c.CallFault? || c.page !in pages then pages else pages[c.page := pages[c.page].(slot := Some(f))]
    case Refused => pages
  }

  /** What the call may answer: only a search or a fault is refused, a fault exactly when the page is not mapped or
      the access not allowed; a fixed block is placed where it was asked for, and a resident page keeps its frame. */
  ghost predicate Answers(pages: map<nat, PageView>, c: Call, answer: Answer) {
    match c
    case CallMmap(start, _, _, _, fixed, _) => if fixed then answer == Placed(start) else answer.Placed? || answer.Refused?
    case CallMunmap(_, _) => answer.Changed?
    case CallMprotect(_, _, _) => answer.Changed?
    case CallFault(p, access) =>
      if p in pages && access <= pages[p].flags then answer.Loaded? && (pages[p].slot.Some? ==> pages[p].slot == Some(answer.frame))
      else answer.Refused?
  }

  /** One call took the address space from `x` to `x1`. */
  ghost predicate Called(x: Isolation.Proc, c: Call, answer: Answer, x1: Isolation.Proc) {
    && Tiled(x.owned, x.home) && Tiled(x1.owned, x1.home)
    && Answers(Pages(x.owned, x.home), c, answer)
    && Pages(x1.owned, x1.home) == Effect(Pages(x.owned, x.home), c, answer)
  }

  /** A fault changes the frame of one page at most. */
  lemma FaultEffect(owned: Owned, owned1: Owned, home: Home, m: Memory, m1: Memory, files: Files, p: nat, access: Flags, ok: bool)
    requires Faulted(owned, owned1, home, m, m1, files, p) && (ok ==> p in home && View(owned1, home, p).slot.Some?)
    requires ok <==> p in home && access <= View(owned, home, p).flags
    requires !ok ==> owned1 == owned
    ensures Called(Isolation.Proc(owned, home), CallFault(p, access),
                   if ok then Loaded(View(owned1, home, p).slot.value) else Refused, Isolation.Proc(owned1, home))
  {
    assert p in home ==> Pages(owned, home)[p] == View(owned, home, p);
    if ok { FaultPages(owned, owned1, home, m, m1, files, p); }
  }

  lemma FaultPages(owned: Owned, owned1: Owned, home: Home, m: Memory, m1: Memory, files: Files, p: nat)
    requires Faulted(owned, owned1, home, m, m1, files, p) && p in home
    ensures Pages(owned1, home) == Pages(owned, home)[p := View(owned, home, p).(slot := View(owned1, home, p).slot)]
  {
    forall q | q in home ensures View(owned1, home, q) ==
      if q == p then View(owned, home, p).(slot := View(owned1, home, p).slot) else View(owned, home, q) {
      assert View(owned1, home, q) == View(owned, home, q).(slot := View(owned1, home, q).slot);
    }
  }

  class MemorySet {
    const kernel: map<nat, Pte>
    const userStart: nat
    const pt: PageTable
    var owned: Owned
    var attached: seq<Attached>
    ghost var home: Home

    ghost predicate Valid()
      reads this, pt
    {
      && Tiled(owned, home) && TableOk(pt.entries, owned, home, Foreign(kernel, attached))
      && AttachedOk(attached, kernel)
    }

    constructor (kernel: map<nat, Pte>, userStart: nat)
      ensures Valid() && owned == map[] && home == map[] && attached == []
      ensures this.kernel == kernel && this.userStart == userStart && fresh(pt)
    {
      this.kernel, this.userStart := kernel, userStart;
      pt := new PageTable(kernel);
      owned, attached, home := map[], [], map[];
    }

    /** Moves the areas that overlap [start, end) out of the map. */
    method TakeOverlapping(start: nat, end: nat) returns (over: seq<Area>, ghost keys: set<nat>)
      requires Tiled(owned, home)
      modifies this`owned, this`home
      ensures Taken(old(owned), start, end, over, keys)
      ensures owned == old(owned) - keys && home == Without(old(home), keys)
    {
      over, owned, keys := Partition(owned, home, start, end);
      home := Without(home, keys);
    }

    /** Inserts an area and asserts that its key was free. */
    method Insert(a: Area)
      requires a.vpn !in owned
      modifies this`owned, this`home
      ensures owned == old(owned)[a.vpn := a] && home == Plus(old(home), a)
      ensures old(Tiled(owned, home)) && |a.pages| > 0 && old(forall p | p in Content(a) :: p !in home) ==>
        Puts(old(owned), old(home), owned, home, Content(a))
    {
      if Tiled(owned, home) && |a.pages| > 0 && forall p | p in Content(a) :: p !in home { InsertArea(owned, home, a); }
      owned := owned[a.vpn := a];
      home := Plus(home, a);
    }

    method InsertBoth(a: Area, b: Area)
      requires Tiled(owned, home) && |a.pages| > 0 && |b.pages| > 0 && Content(a).Keys !! Content(b).Keys
      requires forall p | p in Content(a) || p in Content(b) :: p !in home
      modifies this`owned, this`home
      ensures Puts(old(owned), old(home), owned, home, Content(a) + Content(b)) && a.vpn in owned
    {
      InsertArea(owned, home, a);
      Insert(a);
      ghost var o1, h1 := owned, home;
      forall p | p in Content(b) ensures p !in home { assert PutAt(old(owned), old(home), o1, h1, Content(a), p); }
      InsertArea(owned, home, b);
      Insert(b);
      PutsThen(old(owned), old(home), o1, h1, owned, home, Content(a), Content(b));
    }

    method PunchMiddle(area: MapArea, start: nat, end: nat)
      requires Tiled(owned, home) && StrictlyContains(area.View(), start, end) && start <= end
      requires forall p | p in Content(area.View()) :: p !in home && p in pt.entries
      modifies this`owned, this`home, pt, area
      ensures Puts(old(owned), old(home), owned, home, Outside(old(area.View()), start, end))
      ensures PagesDropped(old(pt.entries), pt.entries, old(area.View()), start, end) && end in owned
    {
      ghost var a := area.View();
      KeysMapped(owned, home);
      var right := area.RemoveMid(start, end, pt);
      OutsideIsTwoParts(a, start, end);
      InsertBoth(right.Value(), area.Value());
    }

    method PunchLeft(area: MapArea, start: nat, end: nat)
      requires Tiled(owned, home) && start <= area.vpn < end < area.View().End()
      requires forall p | p in Content(area.View()) :: p !in home && p in pt.entries
      modifies this`owned, this`home, pt, area
      ensures Puts(old(owned), old(home), owned, home, Outside(old(area.View()), start, end))
      ensures PagesDropped(old(pt.entries), pt.entries, old(area.View()), start, end)
    {
      ghost var a := area.View();
      KeysMapped(owned, home);
      area.ShrinkLeft(end, pt);
      OutsideIsRightPart(a, start, end);
      assert end in Content(a);
      Insert(area.Value());
    }

    method PunchRight(area: MapArea, start: nat, end: nat)
      requires Tiled(owned, home) && area.vpn <= start < area.View().End()
      requires (area.vpn < start && area.View().End() <= end) || start == end == area.vpn
      requires forall p | p in Content(area.View()) :: p !in home && p in pt.entries
      modifies this`owned, this`home, pt, area
      ensures start < end || old(area.vpn) != start ==>
        Puts(old(owned), old(home), owned, home, Outside(old(area.View()), start, end))
      ensures start == end == old(area.vpn) ==> owned == old(owned)[start := old(area.View()).(pages := [])]
      ensures PagesDropped(old(pt.entries), pt.entries, old(area.View()), start, old(area.View()).End())
    {
      ghost var a := area.View();
      KeysMapped(owned, home);
      area.ShrinkRight(start, pt);
      if start < end || a.vpn != start { OutsideIsLeftPart(a, start, end); }
      assert a.vpn in Content(a);
      Insert(area.Value());
    }

    /** Puts back what is left of `area` outside [start, end) and unmaps the rest.  An empty range at the
        start of the area takes the last branch and empties the area. */
    method PunchArea(area: MapArea, start: nat, end: nat)
      requires Tiled(owned, home) && |area.pages| > 0 && start <= end && Overlaps(area.View(), start, end)
      requires forall p | p in Content(area.View()) :: p !in home && p in pt.entries
      modifies this`owned, this`home, pt, area
      ensures start < end || old(area.vpn) != start ==>
        Puts(old(owned), old(home), owned, home, Outside(old(area.View()), start, end))
      ensures start == end == old(area.vpn) ==> owned == old(owned)[start := old(area.View()).(pages := [])]
      ensures forall p: nat :: p in pt.entries <==>
        p in old(pt.entries) && !(old(area.View()).Covers(p) && (start <= p < end || start == end == old(area.vpn)))
      ensures forall p | p in pt.entries :: pt.entries[p] == old(pt.entries)[p]
      ensures StrictlyContains(old(area.View()), start, end) ==> end in owned
    {
      ghost var a := area.View();
      if ContainedIn(area.Value(), start, end) {
        area.Dealloc(pt);
        assert Outside(a, start, end) == map[];
        forall p: nat ensures PutAt(owned, home, owned, home, map[], p) {}
      } else if StrictlyContains(area.Value(), start, end) {
        PunchMiddle(area, start, end);
      } else if start <= area.vpn && area.vpn < end {
        PunchLeft(area, start, end);
      } else {
        PunchRight(area, start, end);
      }
    }

    method PunchNth(over: seq<Area>, i: nat, start: nat, end: nat,
                    ghost owned0: Owned, ghost home0: Home, ghost e0: map<nat, Pte>, ghost keys: set<nat>)
      requires Tiled(owned0, home0) && TableOk(e0, owned0, home0, Foreign(kernel, attached))
      requires Taken(owned0, start, end, over, keys) && i < |over| && start <= end
      requires start == end && start in owned0 ==> over == [owned0[start]]
      requires SplitSoFar(owned0, home0, e0, owned, home, pt.entries, start, end, over, i)
      modifies this`owned, this`home, pt
      ensures SplitSoFar(owned0, home0, e0, owned, home, pt.entries, start, end, over, i + 1)
      ensures start == end ==> start in owned
    {
      ghost var todo, k := KeysFrom(over, i), over[i].vpn;
      assert KeysFrom(over, i + 1) == todo - {k};
      TodoPages(owned0, home0, e0, owned, home, pt.entries, start, end, todo, Foreign(kernel, attached), k);
      assert Keyed(owned0, k);
      ghost var o, h, e := owned, home, pt.entries;
      var area := new MapArea(over[i]);
      PunchArea(area, start, end);
      if start < end || start !in owned0 {
        PunchNext(owned0, home0, e0, o, h, e, owned, home, pt.entries, start, end, todo, k);
      } else {
        assert Keyed(owned0, start);
        assert KeysFrom(over, 0) == {start};
      }
    }

    /** Unmaps the range of `n` pages from `start` on, for every area: drop, shrink or split.  Exactly the
        pages of the range go, unless the range is empty and an area begins at `start`: that area goes. */
    method SplitForArea(start: nat, n: nat)
      requires Valid()
      modifies this`owned, this`home, pt
      ensures n > 0 || start !in old(owned) ==>
        && Valid() && RangeGone(old(pt.entries), pt.entries, old(home), start, start + n)
        && Pages(owned, home) == WithoutRange(old(Pages(owned, home)), start, start + n)
        && FramesKept(old(owned), old(home), owned, home)
      ensures n == 0 && start in old(owned) ==> Emptied(old(owned), old(pt.entries), owned, pt.entries, start)
      ensures n == 0 ==> if start in old(home) then start in owned else owned == old(owned) && home == old(home)
    {
      var end := start + n;
      var over, keys := TakeOverlapping(start, end);
      PunchStart(old(owned), old(home), pt.entries, start, end, over, keys);
      if n == 0 { EmptyRangeOverlaps(old(owned), old(home), start, over, keys); }
      PunchAll(over, start, end, old(owned), old(home), old(pt.entries), keys);
      SplitDone(old(owned), old(home), old(pt.entries), owned, home, pt.entries, start, end, over, Foreign(kernel, attached));
    }

    method PunchAll(over: seq<Area>, start: nat, end: nat,
                    ghost owned0: Owned, ghost home0: Home, ghost e0: map<nat, Pte>, ghost keys: set<nat>)
      requires Tiled(owned0, home0) && TableOk(e0, owned0, home0, Foreign(kernel, attached)) && start <= end
      requires Taken(owned0, start, end, over, keys) && (start == end ==> |over| <= 1)
      requires start == end && start in owned0 ==> over == [owned0[start]]
      requires SplitSoFar(owned0, home0, e0, owned, home, pt.entries, start, end, over, 0)
      modifies this`owned, this`home, pt
      ensures SplitSoFar(owned0, home0, e0, owned, home, pt.entries, start, end, over, |over|) && KeysFrom(over, |over|) == {}
      ensures start == end && over != [] ==> start in owned
      ensures over == [] ==> owned == old(owned) && home == old(home)
    {
      for i := 0 to |over|
        invariant SplitSoFar(owned0, home0, e0, owned, home, pt.entries, start, end, over, i)
        invariant i > 0 && start == end ==> start in owned
        invariant i == 0 ==> owned == old(owned) && home == old(home)
      {
        PunchNth(over, i, start, end, owned0, home0, e0, keys);
      }
    }

    /** [start, end) strictly inside `area`: three areas, the middle one with new flags. */
    method ProtectMiddle(area: MapArea, start: nat, end: nat, flags: Flags)
      requires Tiled(owned, home) && start < end && StrictlyContains(area.View(), start, end)
      requires forall p | p in Content(area.View()) :: p !in home && p in pt.entries
      modifies this`owned, this`home, pt, area
      ensures Puts(old(owned), old(home), owned, home, Reflagged(old(area.View()), start, end, flags))
      ensures FlagsSet(old(pt.entries), pt.entries, old(area.View()), start, end, flags)
    {
      ReflaggedIsThreeParts(area.View(), start, end, flags);
      var mid, right := area.Split3(start, end);
      mid.UpdateFlags(flags, pt);
      InsertThree(mid.Value(), right.Value(), area.Value());
    }

    /** [start, end) covers the left part of `area`. */
    method ProtectLeft(area: MapArea, start: nat, end: nat, flags: Flags)
      requires Tiled(owned, home) && start <= area.vpn < end < area.vpn + |area.pages|
      requires forall p | p in Content(area.View()) :: p !in home && p in pt.entries
      modifies this`owned, this`home, pt, area
      ensures Puts(old(owned), old(home), owned, home, Reflagged(old(area.View()), start, end, flags))
      ensures FlagsSet(old(pt.entries), pt.entries, old(area.View()), start, end, flags)
    {
      ReflaggedLeftPart(area.View(), start, end, flags);
      var right := area.Split(end);
      area.UpdateFlags(flags, pt);
      InsertBoth(right.Value(), area.Value());
    }

    /** [start, end) covers the right part of `area`. */
    method ProtectRight(area: MapArea, start: nat, end: nat, flags: Flags)
      requires Tiled(owned, home) && area.vpn < start < area.vpn + |area.pages| <= end
      requires forall p | p in Content(area.View()) :: p !in home && p in pt.entries
      modifies this`owned, this`home, pt, area
      ensures Puts(old(owned), old(home), owned, home, Reflagged(old(area.View()), start, end, flags))
      ensures FlagsSet(old(pt.entries), pt.entries, old(area.View()), start, end, flags)
    {
      ReflaggedRightPart(area.View(), start, end, flags);
      var right := area.Split(start);
      right.UpdateFlags(flags, pt);
      InsertBoth(right.Value(), area.Value());
    }

    /** Puts `area` back with new flags in [start, end), split in two or three where needed. */
    method ProtectArea(area: MapArea, start: nat, end: nat, flags: Flags)
      requires Tiled(owned, home) && |area.pages| > 0 && start < end && Overlaps(area.View(), start, end)
      requires forall p | p in Content(area.View()) :: p !in home && p in pt.entries
      modifies this`owned, this`home, pt, area
      ensures Puts(old(owned), old(home), owned, home, Reflagged(old(area.View()), start, end, flags))
      ensures FlagsSet(old(pt.entries), pt.entries, old(area.View()), start, end, flags)
    {
      if ContainedIn(area.Value(), start, end) {
        ReflaggedWhole(area.View(), start, end, flags);
        area.UpdateFlags(flags, pt);
        InsertArea(owned, home, area.Value());
        Insert(area.Value());
      } else if StrictlyContains(area.Value(), start, end) {
        ProtectMiddle(area, start, end, flags);
      } else if start <= area.vpn && area.vpn < end {
        ProtectLeft(area, start, end, flags);
      } else {
        ProtectRight(area, start, end, flags);
      }
    }

    method InsertThree(a: Area, b: Area, c: Area)
      requires Tiled(owned, home) && |a.pages| > 0 && |b.pages| > 0 && |c.pages| > 0
      requires Content(a).Keys !! Content(b).Keys !! Content(c).Keys
      requires forall p | p in Content(a) || p in Content(b) || p in Content(c) :: p !in home
      modifies this`owned, this`home
      ensures Puts(old(owned), old(home), owned, home, Content(a) + Content(b) + Content(c))
    {
      InsertBoth(a, b);
      ghost var o1, h1 := owned, home;
      forall p | p in Content(c) ensures p !in home { assert PutAt(old(owned), old(home), o1, h1, Content(a) + Content(b), p); }
      InsertArea(owned, home, c);
      Insert(c);
      PutsThen(old(owned), old(home), o1, h1, owned, home, Content(a) + Content(b), Content(c));
    }

    method ProtectNth(over: seq<Area>, i: nat, start: nat, end: nat, flags: Flags,
                      ghost owned0: Owned, ghost home0: Home, ghost e0: map<nat, Pte>, ghost keys: set<nat>)
      requires Tiled(owned0, home0) && TableOk(e0, owned0, home0, Foreign(kernel, attached))
      requires Taken(owned0, start, end, over, keys) && i < |over| && start < end
      requires Protected(owned0, home0, e0, owned, home, pt.entries, start, end, flags, KeysFrom(over, i))
      modifies this`owned, this`home, pt
      ensures Protected(owned0, home0, e0, owned, home, pt.entries, start, end, flags, KeysFrom(over, i + 1))
    {
      ghost var todo, k := KeysFrom(over, i), over[i].vpn;
      assert KeysFrom(over, i + 1) == todo - {k};
      TodoPagesToProtect(owned0, home0, e0, owned, home, pt.entries, start, end, flags, todo, Foreign(kernel, attached), k);
      assert Keyed(owned0, k);
      ghost var o, h, e := owned, home, pt.entries;
      var area := new MapArea(over[i]);
      ProtectArea(area, start, end, flags);
      ProtectNext(owned0, home0, e0, o, h, e, owned, home, pt.entries, start, end, flags, todo, k);
    }

    method ProtectAll(over: seq<Area>, start: nat, end: nat, flags: Flags,
                      ghost owned0: Owned, ghost home0: Home, ghost e0: map<nat, Pte>, ghost keys: set<nat>)
      requires Tiled(owned0, home0) && TableOk(e0, owned0, home0, Foreign(kernel, attached))
      requires Taken(owned0, start, end, over, keys) && (start < end || over == [])
      requires Protected(owned0, home0, e0, owned, home, pt.entries, start, end, flags, KeysFrom(over, 0))
      modifies this`owned, this`home, pt
      ensures Protected(owned0, home0, e0, owned, home, pt.entries, start, end, flags, {})
    {
      for i := 0 to |over|
        invariant Protected(owned0, home0, e0, owned, home, pt.entries, start, end, flags, KeysFrom(over, i))
      {
        ProtectNth(over, i, start, end, flags, owned0, home0, e0, keys);
      }
      assert KeysFrom(over, |over|) == {};
    }

    /** An empty range in `area`: inside, the split in three asserts that it is not empty; at its start, both
        parts of the split in two have the same key and the second insert asserts that it is free. */
    method ProtectEmpty(area: MapArea, start: nat, flags: Flags) returns (ok: bool)
      requires area.View().Covers(start) && forall p | area.View().Covers(p) :: p in pt.entries
      modifies this`owned, pt, area
      ensures !ok
    {
      if StrictlyContains(area.Value(), start, start) { return false; }
      var right := area.Split(start);
      right.UpdateFlags(flags, pt);
      owned := owned[right.vpn := right.Value()];
      ok := area.vpn !in owned;
    }

    /** Sets the flags of the `n` pages from `start` on that are mapped.  `ok` says that no assert of the code
        stopped it: an empty range must not start in a mapped page. */
    method Mprotect(start: nat, n: nat, flags: Flags) returns (ok: bool)
      requires Valid()
      modifies this`owned, this`home, pt
      ensures ok <==> n > 0 || start !in old(home)
      ensures ok ==> Valid() && Pages(owned, home) == WithFlagsIn(old(Pages(owned, home)), start, start + n, flags)
      ensures ok ==> Protected(old(owned), old(home), old(pt.entries), owned, home, pt.entries, start, start + n, flags, {})
      ensures ok ==> FramesKept(old(owned), old(home), owned, home)
    {
      var over, keys := TakeOverlapping(start, start + n);
      ProtectStart(old(owned), old(home), pt.entries, start, start + n, flags, over, keys);
      if n == 0 { EmptyRangeOverlaps(old(owned), old(home), start, over, keys); }
      if n == 0 && over != [] {
        AreaAgrees(pt.entries, old(owned), old(home), Foreign(kernel, attached), over[0].vpn);
        var area := new MapArea(over[0]);
        ok := ProtectEmpty(area, start, flags);
      } else {
        ProtectAll(over, start, start + n, flags, old(owned), old(home), old(pt.entries), keys);
        ProtectEnd(old(owned), old(home), old(pt.entries), owned, home, pt.entries, start, start + n, flags,
                   Foreign(kernel, attached));
        NewFlagsKeepFrames(old(owned), old(home), owned, home, start, start + n, flags);
        ok := true;
      }
    }

    /** Maps a lazy area.  `ok` says that the code did not stop: no page of the range was mapped, or, for an
        empty range, no area had its key. */
    method NewRegion(start: nat, n: nat, shared: bool, flags: Flags, backend: Option<Backend>) returns (ok: bool)
      requires n > 0 ==> Valid()
      modifies this`owned, this`home, pt
      ensures ok <==> if n > 0 then forall p | InRange(p, start, n) :: p !in old(pt.entries) else start !in old(owned)
      ensures ok && n > 0 ==> Valid() && FramesKept(old(owned), old(home), owned, home)
      ensures ok && n > 0 ==>
        Pages(owned, home) == old(Pages(owned, home)) + Content(LazyArea(start, n, shared, flags, backend))
      ensures ok && n > 0 ==> Agrees(pt.entries, LazyArea(start, n, shared, flags, backend))
      ensures ok && n > 0 ==> SameOutside(old(pt.entries), pt.entries, LazyArea(start, n, shared, flags, backend))
      ensures n == 0 ==> home == old(home) && pt.entries == old(pt.entries)
      ensures ok && n == 0 ==> owned == old(owned)[start := LazyArea(start, n, shared, flags, backend)]
    {
      if exists p | start <= p < start + n :: p in pt.entries {
        assert exists p :: InRange(p, start, n) && p in pt.entries;
        return false;
      }
      assert forall p | InRange(p, start, n) :: p !in pt.entries;
      if n > 0 {
        InsertLazy(start, n, shared, flags, backend);
        return true;
      }
      var area := new MapArea.Lazy(start, n, flags, backend, pt);
      assert pt.entries == old(pt.entries);
      if shared { area.SetShared(shared); }
      ok := start !in owned;
      owned := owned[start := area.Value()];
    }

    /** Inserts an area whose pages are new and already in the page table, which was `e0` before. */
    method AddArea(a: Area, ghost e0: map<nat, Pte>)
      requires Tiled(owned, home) && TableOk(e0, owned, home, Foreign(kernel, attached)) && AttachedOk(attached, kernel)
      requires |a.pages| > 0 && Agrees(pt.entries, a) && SameOutside(e0, pt.entries, a) && forall p | a.Covers(p) :: p !in e0
      modifies this`owned, this`home
      ensures Valid() && Pages(owned, home) == old(Pages(owned, home)) + Content(a)
    {
      forall p | p in Content(a) ensures p !in home && p !in e0 {
        assert EntryOk(e0, owned, home, Foreign(kernel, attached), p);
      }
      InsertArea(owned, home, a);
      Insert(a);
      NewPagesKeepTable(old(owned), old(home), e0, owned, home, pt.entries, a, Foreign(kernel, attached));
      PutsPages(old(owned), old(home), owned, home, Content(a));
    }

    method InsertLazy(start: nat, n: nat, shared: bool, flags: Flags, backend: Option<Backend>)
      requires Valid() && n > 0 && forall p | InRange(p, start, n) :: p !in pt.entries
      modifies this`owned, this`home, pt
      ensures Valid() && FramesKept(old(owned), old(home), owned, home)
      ensures Pages(owned, home) == old(Pages(owned, home)) + Content(LazyArea(start, n, shared, flags, backend))
      ensures Agrees(pt.entries, LazyArea(start, n, shared, flags, backend))
      ensures SameOutside(old(pt.entries), pt.entries, LazyArea(start, n, shared, flags, backend))
    {
      ghost var a := LazyArea(start, n, shared, flags, backend);
      var area := new MapArea.Lazy(start, n, flags, backend, pt);
      if shared {
        area.SetShared(shared);
      }
      assert forall p: nat :: InRange(p, start, n) <==> a.Covers(p);
      AddArea(area.Value(), old(pt.entries));
      LazyPagesKeepFrames(old(owned), old(home), owned, home, start, n, shared, flags, backend);
    }

    /** Maps an area with initial contents, `data` being what the contiguous allocation was filled with.  The code
        does not stop if and only if there are pages, none of them was mapped and the allocation succeeds. */
    method NewRegionWithData(start: nat, shared: bool, flags: Flags, data: seq<Page>, backend: Option<Backend>, mem: PhysMem)
      returns (ok: bool, ghost a: Area)
      requires Valid() && mem.Valid() && FramesOk(owned, home, mem.content)
      modifies this`owned, this`home, pt, mem
      ensures Used(old(mem.refuse), mem.refuse)
      ensures ok <==> data != [] && (forall p | InRange(p, start, |data|) :: p !in old(pt.entries)) && Clean(old(mem.refuse), mem.refuse)
      ensures ok ==> Valid() && mem.Valid() && FramesOk(owned, home, mem.content)
      ensures ok ==> a == Area(a.pages, start, shared, flags, backend) && HoldsNew(a.pages, data, old(mem.content), mem.content)
      ensures ok ==> Pages(owned, home) == old(Pages(owned, home)) + Content(a)
    {
      a := LazyArea(start, 0, shared, flags, backend);
      if data == [] { return false, a; }
      if exists p | start <= p < start + |data| :: p in pt.entries {
        assert exists p :: InRange(p, start, |data|) && p in pt.entries;
        return false, a;
      }
      assert forall p | InRange(p, start, |data|) :: p !in pt.entries;
      ok, a := InsertFilled(start, shared, flags, data, backend, mem);
      if ok {
        NewPagesKeepFrames(old(owned), old(home), owned, home, a, data, old(mem.content), mem.content);
      }
    }

    /** An area with initial contents, in the page table and not yet among the areas. */
    method MakeFilled(start: nat, shared: bool, flags: Flags, data: seq<Page>, backend: Option<Backend>, mem: PhysMem)
      returns (r: Option<Area>)
      requires mem.Valid() && forall p | InRange(p, start, |data|) :: p !in pt.entries
      modifies pt, mem
      ensures mem.Valid() && Used(old(mem.refuse), mem.refuse) && (r.Some? <==> Clean(old(mem.refuse), mem.refuse))
      ensures r.Some? ==> r.value == Area(r.value.pages, start, shared, flags, backend)
      ensures r.Some? ==> HoldsNew(r.value.pages, data, old(mem.content), mem.content)
      ensures r.Some? ==> Agrees(pt.entries, r.value) && SameOutside(old(pt.entries), pt.entries, r.value)
    {
      var made := MapArea.NewAlloc(start, flags, data, backend, pt, mem);
      if made.None? { return None; }
      SharedAgrees(old(pt.entries), pt.entries, made.value.View(), shared);
      if shared { made.value.SetShared(shared); }
      r := Some(made.value.Value());
    }

    method InsertFilled(start: nat, shared: bool, flags: Flags, data: seq<Page>, backend: Option<Backend>, mem: PhysMem)
      returns (ok: bool, ghost a: Area)
      requires Valid() && mem.Valid() && data != [] && forall p | InRange(p, start, |data|) :: p !in pt.entries
      modifies this`owned, this`home, pt, mem
      ensures Used(old(mem.refuse), mem.refuse) && (ok <==> Clean(old(mem.refuse), mem.refuse))
      ensures ok ==> Valid() && mem.Valid() && Pages(owned, home) == old(Pages(owned, home)) + Content(a)
      ensures ok ==> a == Area(a.pages, start, shared, flags, backend) && HoldsNew(a.pages, data, old(mem.content), mem.content)
    {
      a := LazyArea(start, 0, shared, flags, backend);
      var made := MakeFilled(start, shared, flags, data, backend, mem);
      ok := made.Some?;
      if ok {
        a := made.value;
        assert forall p: nat :: InRange(p, start, |data|) <==> a.Covers(p);
        AddArea(made.value, old(pt.entries));
      }
    }

    /** The segments of the areas and of the attached memory, in order. */
    method Segments() returns (segs: seq<Segment>)
      requires Valid()
      ensures InOrder(segs) && forall s :: s in segs <==> s in SegmentsInUse(owned, attached)
    {
      segs := [];
      var rest := owned.Keys;
      ghost var done: set<nat> := {};
      while rest != {}
        invariant InOrder(segs) && rest + done == owned.Keys && rest !! done
        invariant forall s :: s in segs <==> exists k :: k in done && s == AreaSegment(owned[k])
        decreases rest
      {
        var k :| k in rest;
        forall s | s in segs ensures Apart(s, AreaSegment(owned[k])) {
          var j :| j in done && s == AreaSegment(owned[j]);
          AreasApart(owned, home, j, k);
        }
        assert Keyed(owned, k);
        segs := InsertSegment(segs, AreaSegment(owned[k]));
        rest, done := rest - {k}, done + {k};
      }
      for i := 0 to |attached|
        invariant InOrder(segs)
        invariant forall s :: s in segs <==>
          (exists k :: k in owned && s == AreaSegment(owned[k])) || (exists j :: 0 <= j < i && s == AttachedSegment(attached[j]))
      {
        forall s | s in segs ensures Apart(s, AttachedSegment(attached[i])) {
          if k :| k in owned && s == AreaSegment(owned[k]) {
            AreaApartFromAttached(pt.entries, owned, home, kernel, attached, k, i);
          }
        }
        segs := InsertSegment(segs, AttachedSegment(attached[i]));
      }
    }

    /** A free range of `n` pages, or None if neither the space from the clamped hint to the first segment
        nor any gap between consecutive segments is large enough. */
    method FindFreeArea(hint: nat, n: nat) returns (r: Option<nat>)
      requires Valid()
      ensures r.Some? ==> IsFree(SegmentsInUse(owned, attached), n, r.value)
      ensures r.Some? ==> FirstFit(SegmentsInUse(owned, attached), if hint > userStart then hint else userStart, n, r.value)
      ensures r.None? <==> NoRoom(SegmentsInUse(owned, attached), if hint > userStart then hint else userStart, n)
    {
      var segs := Segments();
      assert SetOf(segs) == SegmentsInUse(owned, attached);
      r := FirstGap(segs, if hint > userStart then hint else userStart, n);
    }

    /** Unmaps the pages that a range of `size` bytes meets; an empty range empties the area that begins there. */
    method Munmap(start: nat, size: nat)
      requires Valid()
      modifies this`owned, this`home, pt
      ensures size > 0 || start !in old(owned) ==>
        && Valid()
        && Pages(owned, home) == WithoutBytes(old(Pages(owned, home)), start, size)
        && (forall p: nat :: p in pt.entries <==> p in old(pt.entries) && !(p in old(home) && InBytes(p, start, size)))
        && (forall p: nat | p in pt.entries :: pt.entries[p] == old(pt.entries)[p])
        && FramesKept(old(owned), old(home), owned, home)
      ensures size == 0 && start in old(owned) ==> Emptied(old(owned), old(pt.entries), owned, pt.entries, start)
    {
      BytesArePages(Pages(owned, home), start, size);
      SplitForArea(start, PagesFor(size));
    }

    /** Maps a lazy area at `start`, replacing what is there.  The code stops if the range meets kernel pages or
        attached segments, or if it is empty and starts in a mapped page. */
    method MmapFixed(start: nat, n: nat, flags: Flags, shared: bool, backend: Option<Backend>) returns (ok: bool)
      requires Valid()
      modifies this`owned, this`home, pt
      ensures n > 0 ==> (ok <==> forall p | InRange(p, start, n) :: p !in Foreign(kernel, attached))
      ensures n == 0 ==> (ok <==> start !in old(home))
      ensures ok && n > 0 ==> Valid() && FramesKept(old(owned), old(home), owned, home)
      ensures ok && n > 0 ==>
        Pages(owned, home) == old(Pages(owned, home)) + Content(LazyArea(start, n, shared, flags, backend))
      ensures ok && n == 0 ==>
        home == old(home) && owned == old(owned)[start := LazyArea(start, n, shared, flags, backend)]
    {
      ghost var before, a := Pages(owned, home), LazyArea(start, n, shared, flags, backend);
      KeysMapped(owned, home);
      SplitForArea(start, n);
      if n > 0 {
        DropThenWrite(before, Pages(owned, home), start, n, a);
        ForeignRange(pt.entries, owned, home, Foreign(kernel, attached), start, n);
      }
      ok := NewRegion(start, n, shared, flags, backend);
      if ok && n > 0 { LazyPagesKeepFrames(old(owned), old(home), owned, home, start, n, shared, flags, backend); }
    }

    /** Maps a lazy area at `start`, replacing what is there, or at the first free place from `start` on. */
    method Mmap(start: nat, size: nat, flags: Flags, shared: bool, fixed: bool, backend: Option<Backend>)
      returns (r: Attempt<nat>)
      requires Valid()
      modifies this`owned, this`home, pt
      ensures r.Got? && size > 0 ==> Valid() && FramesKept(old(owned), old(home), owned, home)
      ensures r.Got? && size > 0 ==>
        Pages(owned, home) == old(Pages(owned, home)) + Content(LazyArea(r.value, PagesFor(size), shared, flags, backend))
      ensures r.Got? && size == 0 ==> home == old(home) && owned == old(owned)[r.value := LazyArea(r.value, 0, shared, flags, backend)]
      ensures fixed ==> r == Got(start) || r == Stopped
      ensures fixed && size > 0 ==>
        (r == Got(start) <==> forall p | InRange(p, start, PagesFor(size)) :: p !in Foreign(kernel, attached))
      ensures fixed && size == 0 ==> (r == Got(start) <==> start !in old(home))
      ensures !fixed ==> Found(old(owned), PagesFor(size), if start > userStart then start else userStart, r)
      ensures !fixed && r.Got? ==> Content(LazyArea(r.value, PagesFor(size), shared, flags, backend)).Keys !! old(home).Keys
      ensures r.NoMemory? ==> owned == old(owned) && home == old(home) && pt.entries == old(pt.entries)
      ensures !fixed && size > 0 && BelowKernel(old(owned)) ==> !r.Stopped?
      ensures r.Got? && size > 0 ==> NewPages(owned, home, r.value, PagesFor(size), shared, flags, backend)
    {
      var n := PagesFor(size);
      if fixed {
        var ok := MmapFixed(start, n, flags, shared, backend);
        r := if ok then Got(start) else Stopped;
      } else {
        var found := FindFreeArea(start, n);
        if found.None? { return NoMemory; }
        FreeIsForeignOrUnmapped(found.value, n);
        var ok := NewRegion(found.value, n, shared, flags, backend);
        r := if ok then Got(found.value) else Stopped;
        if n > 0 && BelowKernel(old(owned)) { NotObstructed(old(owned), n, found.value); }
      }
      if r.Got? && size > 0 { LazyAreaIsNew(owned, home, old(Pages(owned, home)), r.value, n, shared, flags, backend); }
    }

    /** What a search for `n` pages from `from` on can lead to: no room, the first fit, or a stop because the
        first fit meets the kernel or, for an empty range, an area already begins there. */
    ghost predicate Found(owned0: Owned, n: nat, from: nat, r: Attempt<nat>)
      reads this
    {
      var segs := SegmentsInUse(owned0, attached);
      match r
      case NoMemory => NoRoom(segs, from, n)
      case Got(at) => IsFree(segs, n, at) && FirstFit(segs, from, n, at) && !Obstructed(owned0, n, at)
      case Stopped => exists at: nat :: IsFree(segs, n, at) && FirstFit(segs, from, n, at) && Obstructed(owned0, n, at)
    }

    ghost predicate Obstructed(owned0: Owned, n: nat, at: nat) {
      if n > 0 then exists p :: InRange(p, at, n) && p in kernel else at in owned0
    }

    /** The kernel lies above every segment. */
    ghost predicate BelowKernel(owned0: Owned)
      reads this
    {
      forall s, p | s in SegmentsInUse(owned0, attached) && p in kernel :: s.start <= p
    }

    /** So a search never meets it. */
    lemma NotObstructed(owned0: Owned, n: nat, at: nat)
      requires n > 0 && IsFree(SegmentsInUse(owned0, attached), n, at) && BelowKernel(owned0)
      ensures !Obstructed(owned0, n, at)
    {
      var s :| s in SegmentsInUse(owned0, attached) && at + n <= s.start;
      forall p | InRange(p, at, n) ensures p !in kernel { assert s in SegmentsInUse(owned0, attached); }
    }

    lemma FreeIsForeignOrUnmapped(at: nat, n: nat)
      requires Valid() && IsFree(SegmentsInUse(owned, attached), n, at)
      ensures forall p | InRange(p, at, n) :: (p in pt.entries <==> p in kernel) && p !in home
    {
      forall p | InRange(p, at, n) ensures (p in pt.entries <==> p in kernel) && p !in home {
        FreePage(pt.entries, owned, home, kernel, attached, at, n, p);
      }
    }

    method FaultInArea(k: nat, p: nat, access: Flags, mem: PhysMem, files: Files) returns (r: Attempt<bool>)
      requires Valid() && mem.Valid() && FramesOk(owned, home, mem.content) && k in owned && owned[k].Covers(p)
      modifies this`owned, pt, mem
      ensures Tiled(owned, home) && TableOk(pt.entries, owned, home, Foreign(kernel, attached))
      ensures mem.Valid() && Faulted(old(owned), owned, home, old(mem.content), mem.content, files, p)
      ensures FaultAnswer(old(mem.refuse), mem.refuse, access <= old(owned)[k].flags, PageAt(old(owned)[k], p).slot.None?, r)
      ensures r == Got(true) ==> p in home && View(owned, home, p).slot.Some?
      ensures r != Got(true) ==> owned == old(owned) && pt.entries == old(pt.entries) && mem.content == old(mem.content)
    {
      AreaAgrees(pt.entries, owned, home, Foreign(kernel, attached), k);
      assert Keyed(owned, k);
      ghost var a;
      r, a := TouchArea(k, p, access, mem, files);
      FaultDone(old(owned), home, k, p, a, old(mem.content), mem.content, files, r == Got(true));
      ReplacedTable(old(pt.entries), pt.entries, old(owned), home, Foreign(kernel, attached), k, a);
    }

    /** Handles the fault in area `k` and puts the area back. */
    method TouchArea(k: nat, p: nat, access: Flags, mem: PhysMem, files: Files) returns (r: Attempt<bool>, ghost a: Area)
      requires mem.Valid() && k in owned && owned[k].Covers(p) && Agrees(pt.entries, owned[k])
      modifies this`owned, pt, mem
      ensures mem.Valid() && owned == old(owned)[k := a] && a.vpn == old(owned)[k].vpn && |a.pages| == |old(owned)[k].pages|
      ensures FaultTaken(old(owned)[k], a, p, old(mem.content), mem.content, files, r == Got(true))
      ensures Agrees(pt.entries, a) && SameOutside(old(pt.entries), pt.entries, a)
      ensures r != Got(true) ==> pt.entries == old(pt.entries)
      ensures FaultAnswer(old(mem.refuse), mem.refuse, access <= old(owned)[k].flags, PageAt(old(owned)[k], p).slot.None?, r)
    {
      var area := new MapArea(owned[k]);
      ghost var b := area.View();
      r := area.HandlePageFault(p, access, pt, mem, files);
      a := area.View();
      assert FaultTaken(b, a, p, old(mem.content), mem.content, files, r == Got(true));
      owned := owned[k := area.Value()];
    }

    /** A fault on page `p`: the page becomes resident if it is mapped and the access is allowed.  No page
        changes its contents.  Without a frame the code stops. */
    method HandlePageFault(p: nat, access: Flags, mem: PhysMem, files: Files) returns (r: Attempt<bool>)
      requires Valid() && mem.Valid() && FramesOk(owned, home, mem.content)
      modifies this`owned, pt, mem
      ensures Valid() && mem.Valid() && Faulted(old(owned), owned, home, old(mem.content), mem.content, files, p)
      ensures FaultAnswer(old(mem.refuse), mem.refuse, p in home && access <= old(View(owned, home, p)).flags,
                          p in home && old(View(owned, home, p)).slot.None?, r)
      ensures r == Got(true) ==> View(owned, home, p).slot.Some?
      ensures r == Got(true) ==> p in pt.entries && pt.entries[p] == Mapped(View(owned, home, p).slot.value, View(owned, home, p).flags)
      ensures r == Got(true) && old(View(owned, home, p)).slot.None? ==>
        && View(owned, home, p).slot.value in mem.content
        && ShowsFile(mem.content[View(owned, home, p).slot.value], files, old(View(owned, home, p)).source, 0)
      ensures r != Got(true) ==> owned == old(owned) && pt.entries == old(pt.entries) && mem.content == old(mem.content)
    {
      if k :| k in owned && owned[k].vpn <= p < owned[k].End() {
        PagesOf(owned, home, k, p);
        r := FaultInArea(k, p, access, mem, files);
        if r == Got(true) {
          assert EntryOk(pt.entries, owned, home, Foreign(kernel, attached), p);
          if old(View(owned, home, p)).slot.None? { FaultShows(old(owned), owned, home, old(mem.content), mem.content, files, p); }
        }
      } else {
        assert p in home ==> Homed(owned, home, p);
        NothingChanged(owned, home, mem.content, files, p);
        r := Got(false);
      }
    }

    /** Maps a block that is not empty. */
    method MmapBlock(start: nat, size: nat, flags: Flags, shared: bool, fixed: bool, backend: Option<Backend>, ghost m: Memory)
      returns (at: Attempt<nat>)
      requires Valid() && size > 0 && FramesOk(owned, home, m)
      modifies this`owned, this`home, pt
      ensures at.Got? ==> Valid() && FramesOk(owned, home, m)
      ensures at.Got? ==> NewPages(owned, home, at.value, PagesFor(size), shared, flags, backend)
    {
      at := Mmap(start, size, flags, shared, fixed, backend);
    }

    /** Maps a file and touches page `i` of the mapping: the page shows the file 4096 * i bytes further on. */
    method MmapThenFault(start: nat, size: nat, flags: Flags, shared: bool, fixed: bool, backend: Option<Backend>,
                         i: nat, access: Flags, mem: PhysMem, files: Files)
      returns (at: Attempt<nat>, r: Attempt<bool>)
      requires Valid() && mem.Valid() && FramesOk(owned, home, mem.content) && size > 0 && i < PagesFor(size)
      modifies this`owned, this`home, pt, mem
      ensures at.Got? ==> Valid() && at.value + i in home && (r.Got? ==> (r.value <==> access <= flags))
      ensures at.Got? && r == Got(true) ==>
        && View(owned, home, at.value + i).slot.Some? && View(owned, home, at.value + i).slot.value in mem.content
        && ShowsFile(mem.content[View(owned, home, at.value + i).slot.value], files, backend, i)
    {
      r := Stopped;
      at := MmapBlock(start, size, flags, shared, fixed, backend, mem.content);
      if at.Got? {
        assert NewPageAt(owned, home, at.value, shared, flags, backend, i);
        ghost var v := View(owned, home, at.value + i);
        r := HandlePageFault(at.value + i, access, mem, files);
        if r == Got(true) {
          NewPageShows(v, shared, flags, backend, i, mem.content[View(owned, home, at.value + i).slot.value], files);
        }
      }
    }

    /** A store to page `p`, which happens if the page is resident. */
    method Store(p: nat, data: Page, mem: PhysMem) returns (stored: bool)
      requires Valid() && mem.Valid() && FramesOk(owned, home, mem.content)
      modifies mem`content
      ensures mem.Valid() && (stored <==> p in home && View(owned, home, p).slot.Some?)
      ensures if stored then Isolation.Stores(Process(), p, data, old(mem.content), mem.content)
        else mem.content == old(mem.content)
    {
      stored := false;
      if k :| k in owned && owned[k].vpn <= p < owned[k].End() {
        PagesOf(owned, home, k, p);
        var slot := owned[k].pages[p - owned[k].vpn];
        if slot.Some? {
          assert FrameIn(owned, home, mem.content, p);
          mem.Store(slot.value, data);
          stored := true;
        }
      } else {
        assert p in home ==> Homed(owned, home, p);
      }
    }

    /** Maps a System V segment. */
    method AttachSharedMem(a: Attached)
      requires Valid() && a.n > 0 && forall p | InRange(p, a.vpn, a.n) :: p !in pt.entries
      modifies this`attached, pt
      ensures Valid() && attached == old(attached) + [a]
      ensures forall p: nat | InRange(p, a.vpn, a.n) :: p in pt.entries && pt.entries[p] == Mapped(a.first + (p - a.vpn), a.flags)
      ensures forall p: nat | !InRange(p, a.vpn, a.n) :: (p in pt.entries <==> p in old(pt.entries)) && (p in pt.entries ==> pt.entries[p] == old(pt.entries)[p])
    {
      AttachKeepsApart(pt.entries, owned, home, kernel, attached, a);
      pt.MapRegion(a.vpn, a.first, a.n, a.flags);
      attached := attached + [a];
      AttachKeepsTable(old(pt.entries), pt.entries, owned, home, kernel, old(attached), a);
    }

    /** Clones area `k` and puts the copies in both address spaces. */
    method CloneInto(child: MemorySet, k: nat, mem: PhysMem, files: Files)
      returns (r: Attempt<()>, ghost a: Area, ghost c: Area)
      requires child != this && child.pt != pt && mem.Valid() && k in owned
      requires Agrees(pt.entries, owned[k]) && Resident(owned[k].pages, mem.content) && DistinctFrames(owned[k].pages)
      requires forall p | owned[k].Covers(p) :: p !in child.pt.entries
      modifies this`owned, pt, mem, child`owned, child.pt
      ensures Used(old(mem.refuse), mem.refuse) && (r.Got? <==> Clean(old(mem.refuse), mem.refuse))
      ensures r.NoMemory? ==> mem.Valid() && mem.content == old(mem.content) && owned == old(owned) && pt.entries == old(pt.entries)
      ensures r.NoMemory? ==> child.owned == old(child.owned) && child.pt.entries == old(child.pt.entries)
      ensures r.Got? ==> mem.Valid() && owned == old(owned)[k := a] && child.owned == old(child.owned)[k := c]
      ensures r.Got? ==> Cloned(old(owned)[k], a, c, old(mem.content), mem.content, files)
      ensures r.Got? ==> Agrees(pt.entries, a) && SameOutside(old(pt.entries), pt.entries, a)
      ensures r.Got? ==> Agrees(child.pt.entries, c) && SameOutside(old(child.pt.entries), child.pt.entries, a)
    {
      var area := new MapArea(owned[k]);
      a, c := area.View(), area.View();
      var copy := area.CloneAlloc(child.pt, pt, mem, files);
      match copy
      case NoMemory => r := NoMemory;
      case Stopped => r := Stopped;
      case Got(made) =>
        r, a, c := Got(()), area.View(), made.View();
        owned := owned[k := area.Value()];
        child.owned := child.owned[k := made.Value()];
    }

    /** One round of the fork loop. */
    method CloneArea(child: MemorySet, k: nat, mem: PhysMem, files: Files,
                     ghost done: set<nat>, ghost o0: Owned, ghost m0: Memory) returns (r: Attempt<()>)
      requires child != this && child.pt != pt && mem.Valid() && k in owned && k !in done && child.home == Done(home, done)
      requires Forking(o0, owned, child.owned, home, done, m0, mem.content, files,
                       pt.entries, child.pt.entries, Foreign(kernel, attached), kernel)
      modifies this`owned, pt, mem, child`owned, child`home, child.pt
      ensures Used(old(mem.refuse), mem.refuse) && (r.Got? <==> Clean(old(mem.refuse), mem.refuse))
      ensures r.Got? ==> mem.Valid() && child.home == Done(home, done + {k})
      ensures r.Got? ==>
        Forking(o0, owned, child.owned, home, done + {k}, m0, mem.content, files,
                pt.entries, child.pt.entries, Foreign(kernel, attached), kernel)
      ensures r.NoMemory? ==> mem.Valid() && owned == old(owned) && mem.content == old(mem.content) && pt.entries == old(pt.entries)
      ensures r.NoMemory? ==> child.owned == old(child.owned)
    {
      ghost var o, oc, m, e, ec := owned, child.owned, mem.content, pt.entries, child.pt.entries;
      CloneReady(o0, o, oc, home, done, m0, m, files, e, ec, Foreign(kernel, attached), kernel, k);
      ghost var a, c;
      r, a, c := CloneInto(child, k, mem, files);
      if r.Got? {
        child.home := Done(home, done + {k});
        CloneDone(o0, o, oc, home, done, m0, m, mem.content, files, e, pt.entries, ec, child.pt.entries,
                  Foreign(kernel, attached), kernel, k, a, c, owned, child.owned);
      }
    }

    /** The fork loop over the areas. */
    method CloneEach(child: MemorySet, mem: PhysMem, files: Files) returns (r: Attempt<()>)
      requires child != this && child.pt != pt && mem.Valid() && child.home == map[]
      requires Forking(owned, owned, child.owned, home, {}, mem.content, mem.content, files,
                       pt.entries, child.pt.entries, Foreign(kernel, attached), kernel)
      modifies this`owned, pt, mem, child`owned, child`home, child.pt
      ensures Used(old(mem.refuse), mem.refuse) && (r.Got? <==> Clean(old(mem.refuse), mem.refuse))
      ensures r.Got? ==> mem.Valid() && child.home == Done(home, old(owned).Keys)
      ensures r.Got? ==>
        Forking(old(owned), owned, child.owned, home, old(owned).Keys, old(mem.content), mem.content, files,
                pt.entries, child.pt.entries, Foreign(kernel, attached), kernel)
      ensures r.NoMemory? ==> mem.Valid() && ParentKept(old(owned), owned, home, old(mem.content), mem.content, files)
      ensures r.NoMemory? ==> TableOk(pt.entries, owned, home, Foreign(kernel, attached))
    {
      var rest := owned.Keys;
      ghost var done: set<nat> := {};
      ghost var o0, m0 := owned, mem.content;
      assert Done(home, {}) == map[];
      while rest != {}
        invariant rest !! done && rest + done == o0.Keys
        invariant mem.Valid() && child.home == Done(home, done)
        invariant Used(old(mem.refuse), mem.refuse) && Clean(old(mem.refuse), mem.refuse)
        invariant Forking(o0, owned, child.owned, home, done, m0, mem.content, files,
                          pt.entries, child.pt.entries, Foreign(kernel, attached), kernel)
        decreases rest
      {
        var k := LeastKey(rest);
        ForkingKeys(o0, owned, child.owned, home, done, m0, mem.content, files,
                    pt.entries, child.pt.entries, Foreign(kernel, attached), kernel);
        ForkGivenUp(o0, owned, child.owned, home, done, m0, mem.content, files);
        ghost var refuse := mem.refuse;
        r := CloneArea(child, k, mem, files, done, o0, m0);
        CleanTwice(old(mem.refuse), refuse, mem.refuse);
        if !r.Got? { return; }
        rest, done := rest - {k}, done + {k};
      }
      assert done == o0.Keys;
      r := Got(());
    }

    method CloneAreas(mem: PhysMem, files: Files) returns (r: Attempt<()>, child: MemorySet)
      requires Valid() && mem.Valid() && FramesOk(owned, home, mem.content)
      modifies this`owned, pt, mem
      ensures fresh(child) && fresh(child.pt)
      ensures Used(old(mem.refuse), mem.refuse) && (r.Got? <==> Clean(old(mem.refuse), mem.refuse))
      ensures r.Got? ==> mem.Valid() && child.attached == [] && child.kernel == kernel && child.userStart == userStart
      ensures r.Got? ==> child.home == Done(home, old(owned).Keys)
      ensures r.Got? ==>
        Forking(old(owned), owned, child.owned, home, old(owned).Keys, old(mem.content), mem.content, files,
                pt.entries, child.pt.entries, Foreign(kernel, attached), kernel)
      ensures r.NoMemory? ==> mem.Valid() && ParentKept(old(owned), owned, home, old(mem.content), mem.content, files)
      ensures r.NoMemory? ==> TableOk(pt.entries, owned, home, Foreign(kernel, attached))
    {
      child := new MemorySet(kernel, userStart);
      HomeNotKernel(pt.entries, owned, home, kernel, attached);
      ForkingStart(owned, home, mem.content, files, pt.entries, Foreign(kernel, attached), kernel);
      r := CloneEach(child, mem, files);
    }

    /** Attaches the parent's segments to the child. */
    method AttachAll(child: MemorySet)
      requires Valid() && child.Valid() && child != this && child.pt != pt && child.attached == [] && child.home == home
      requires child.kernel == kernel
      modifies child`attached, child.pt
      ensures child.Valid() && child.attached == attached
    {
      for i := 0 to |attached|
        invariant child.Valid() && child.attached == attached[..i]
      {
        AttachReady(pt.entries, owned, child.pt.entries, child.owned, home, kernel, attached, i);
        child.AttachSharedMem(attached[i]);
      }
    }

    /** Fork: a new address space with the same pages, if every allocation succeeds.  Where the code reports
        that one did not, the parent has kept every page and its contents. */
    method CloneOrErr(mem: PhysMem, files: Files) returns (r: Attempt<MemorySet>)
      requires Valid() && mem.Valid() && FramesOk(owned, home, mem.content)
      modifies this`owned, pt, mem
      ensures Used(old(mem.refuse), mem.refuse) && (r.Got? <==> Clean(old(mem.refuse), mem.refuse))
      ensures r.Got? ==> Valid() && mem.Valid() && fresh(r.value) && fresh(r.value.pt) && r.value.Valid()
      ensures r.Got? ==> r.value.home == home && r.value.attached == attached
      ensures r.Got? ==> Forked(old(owned), owned, r.value.owned, home, old(mem.content), mem.content, files)
      ensures r.NoMemory? ==> Valid() && mem.Valid() && ParentKept(old(owned), owned, home, old(mem.content), mem.content, files)
    {
      var made, child := CloneAreas(mem, files);
      match made
      case NoMemory => r := NoMemory;
      case Stopped => r := Stopped;
      case Got(_) =>
        ForkEnd(old(owned), owned, child.owned, home, old(mem.content), mem.content, files);
        AttachAll(child);
        r := Got(child);
    }

    ghost function Process(): Isolation.Proc
      reads this
    {
      Isolation.Proc(owned, home)
    }

    /** Where a call can stop: a mapping that is empty or meets foreign pages, an empty range to unmap at the
        start of an area or to protect at a mapped page, a fault that needs a frame. */
    ghost predicate MayStop(x: Isolation.Proc, c: Call)
      requires Tiled(x.owned, x.home)
      reads this
    {
      match c
      case CallMmap(start, size, _, _, fixed, _) =>
        || size == 0
        || (if fixed then exists p :: InRange(p, start, PagesFor(size)) && p in Foreign(kernel, attached)
            else Found(x.owned, PagesFor(size), if start > userStart then start else userStart, Stopped))
      case CallMunmap(start, size) => size == 0 && start in x.owned
      case CallMprotect(start, n, _) => n == 0 && start in x.home
      case CallFault(p, access) =>
        p in x.home && access <= Isolation.At(x, p).flags && Isolation.At(x, p).slot.None?
    }

    /** The state is the one before, with its mappings changed as the call says. */
    twostate predicate Recast(c: Call, answer: Answer)
      reads this, pt
    {
      && Valid() && old(Valid()) && Called(old(Process()), c, answer, Process())
      && Isolation.Remapped(old(Process()), Process()) && FramesKept(old(owned), old(home), owned, home)
    }

    method PerformMmap(c: Call) returns (stopped: bool, ghost answer: Answer)
      requires Valid() && c.CallMmap?
      modifies this`owned, this`home, pt
      ensures stopped ==> MayStop(old(Process()), c)
      ensures !stopped ==> Recast(c, answer)
    {
      var r := Mmap(c.start, c.size, c.flags, c.shared, c.fixed, c.backend);
      answer := if r.Got? then Placed(r.value) else Refused;
      stopped := r.Stopped? || (r.Got? && c.size == 0);
      if r.Got? && c.size > 0 {
        Isolation.MapIsRemap(old(Process()), Process(), r.value, PagesFor(c.size), c.shared, c.flags, c.backend);
      }
    }

    method PerformMunmap(c: Call) returns (stopped: bool)
      requires Valid() && c.CallMunmap?
      modifies this`owned, this`home, pt
      ensures stopped <==> MayStop(old(Process()), c)
      ensures !stopped ==> Recast(c, Changed)
    {
      stopped := c.size == 0 && c.start in owned;
      Munmap(c.start, c.size);
      if !stopped { Isolation.UnmapIsRemap(old(Process()), Process(), c.start, c.size); }
    }

    method PerformMprotect(c: Call) returns (stopped: bool)
      requires Valid() && c.CallMprotect?
      modifies this`owned, this`home, pt
      ensures stopped <==> MayStop(old(Process()), c)
      ensures !stopped ==> Recast(c, Changed)
    {
      var ok := Mprotect(c.start, c.size, c.flags);
      stopped := !ok;
      if ok { Isolation.ProtectIsRemap(old(Process()), Process(), c.start, c.start + c.size, c.flags); }
    }

    method PerformFault(c: Call, mem: PhysMem, files: Files) returns (stopped: bool, ghost answer: Answer)
      requires Valid() && mem.Valid() && FramesOk(owned, home, mem.content) && c.CallFault?
      modifies this`owned, pt, mem
      ensures Valid() && mem.Valid() && Faulted(old(owned), owned, home, old(mem.content), mem.content, files, c.page)
      ensures Used(old(mem.refuse), mem.refuse) && (stopped <==> !Clean(old(mem.refuse), mem.refuse))
      ensures stopped ==> MayStop(old(Process()), c)
      ensures !stopped ==> Called(old(Process()), c, answer, Process())
    {
      var r := HandlePageFault(c.page, c.access, mem, files);
      stopped := r.Stopped?;
      answer := if r == Got(true) then Loaded(View(owned, home, c.page).slot.value) else Refused;
      if !stopped {
        FaultEffect(old(owned), owned, home, old(mem.content), mem.content, files, c.page, c.access, r.value);
      }
    }

    /** One call.  It is a step of the process in any run with another process. */
    method Perform(c: Call, mem: PhysMem, files: Files, ghost side: Isolation.Side)
      returns (stopped: bool, ghost answer: Answer, ghost step: Isolation.Step)
      requires Valid() && mem.Valid() && FramesOk(owned, home, mem.content)
      modifies this`owned, this`home, pt, mem
      ensures Extends(old(mem.content), mem.content) && Used(old(mem.refuse), mem.refuse)
      ensures stopped ==> MayStop(old(Process()), c) && (c.CallFault? ==> !Clean(old(mem.refuse), mem.refuse))
      ensures !stopped ==> Valid() && mem.Valid() && FramesOk(owned, home, mem.content)
      ensures step == if c.CallFault? then Isolation.Touch(side, c.page) else Isolation.Remap(side)
      ensures !stopped ==> Called(old(Process()), c, answer, Process())
      ensures !stopped ==> Isolation.Moves(old(Process()), old(mem.content), step, Process(), mem.content, files)
    {
      step, answer := Isolation.Remap(side), Changed;
      match c
      case CallMmap(_, _, _, _, _, _) => stopped, answer := PerformMmap(c);
      case CallMunmap(_, _) => stopped := PerformMunmap(c);
      case CallMprotect(_, _, _) => stopped := PerformMprotect(c);
      case CallFault(page, _) =>
        stopped, answer := PerformFault(c, mem, files);
        step := Isolation.Touch(side, page);
    }

    /** Any sequence of calls leaves an address space that can be forked and faulted, and disturbs no frame that
        was in use before.  Its pages are the fold of the calls' effects, and the calls are a run of this
        process beside any other.  `done` calls were made without a stop. */
    method Drive(calls: seq<Call>, mem: PhysMem, files: Files, ghost y: Isolation.Proc)
      returns (done: nat, ghost t: Trace)
      requires Valid() && mem.Valid() && FramesOk(owned, home, mem.content)
      modifies this`owned, this`home, pt, mem
      ensures done <= |calls| && Traces(t, calls[..done], files)
      ensures t.states[0] == Isolation.Pair(old(Process()), y, old(mem.content)) && Extends(old(mem.content), mem.content)
      ensures done < |calls| ==> StoppedAt(t.states[done].a, calls[done])
      ensures done == |calls| ==> Valid() && mem.Valid() && FramesOk(owned, home, mem.content)
      ensures done == |calls| ==> t.states[done] == Isolation.Pair(Process(), y, mem.content)
      ensures done == |calls| ==> Pages(owned, home) == Effects(old(Pages(owned, home)), calls, t.answers)
    {
      done, t := 0, Trace([Isolation.Pair(Process(), y, mem.content)], [], []);
      while done < |calls|
        invariant done <= |calls| && Valid() && mem.Valid() && FramesOk(owned, home, mem.content)
        invariant Traces(t, calls[..done], files)
        invariant t.states[0] == Isolation.Pair(old(Process()), y, old(mem.content))
        invariant t.states[done] == Isolation.Pair(Process(), y, mem.content)
        invariant Extends(old(mem.content), mem.content)
      {
        var stopped;
        ghost var answer, step;
        stopped, answer, step := Perform(calls[done], mem, files, Isolation.First);
        if stopped { return; }
        TraceMore(t, calls, done, files, answer, step, Isolation.Pair(Process(), y, mem.content));
        t := t.Then(answer, step, Isolation.Pair(Process(), y, mem.content));
        done := done + 1;
      }
      assert calls[..done] == calls && t.answers[..done] == t.answers;
      PagesAreEffects(t, calls, files, done);
    }

    ghost predicate StoppedAt(x: Isolation.Proc, c: Call)
      reads this
    {
      Tiled(x.owned, x.home) && MayStop(x, c)
    }
  }

  lemma OnlyPage(owned: Owned, home: Home, p: nat)
    requires Tiled(owned, home) && Pages(owned, home).Keys == {p}
    ensures p in home && p in owned && owned[p].Covers(p)
  {
    assert p in Pages(owned, home);
    assert Homed(owned, home, p);
    KeysMapped(owned, home);
    assert home[p] in Pages(owned, home);
  }

  /** An address space with one lazy page. */
  method OnePage() returns (s: MemorySet)
    ensures fresh(s) && fresh(s.pt) && s.Valid() && 5 in s.home && 5 in s.owned && s.owned[5].Covers(5)
  {
    s := new MemorySet(map[], 0);
    assert Pages(s.owned, s.home) == map[];
    var r := s.Mmap(5, 1, {}, false, true, None);
    assert PagesFor(1) == 1 && s.attached == [] && Foreign(s.kernel, s.attached) == map[];
    assert r == Got(5);
    ghost var a := LazyArea(5, 1, false, {}, None);
    assert a.Covers(5) && forall p: nat :: a.Covers(p) ==> p == 5;
    assert Content(a).Keys == {5};
    assert Pages(s.owned, s.home) == Content(a);
    OnlyPage(s.owned, s.home, 5);
  }

  /** Unmapping no bytes at its start empties the area and leaves it in place. */
  method UnmapNothing() returns (s: MemorySet)
    ensures fresh(s) && 5 in s.owned && s.owned[5].pages == [] && 5 !in s.pt.entries
  {
    s := OnePage();
    s.Munmap(5, 0);
  }

  /** Protecting no pages there stops the code. */
  method ProtectNothing() returns (ok: bool)
    ensures !ok
  {
    var s := OnePage();
    ok := s.Mprotect(5, 0, {});
  }

  /** A run of the first process of a pair, with what its calls answered. */
  datatype Trace = Trace(states: seq<Isolation.Pair>, steps: seq<Isolation.Step>, answers: seq<Answer>) {
    ghost function Then(answer: Answer, step: Isolation.Step, s: Isolation.Pair): Trace {
      Trace(states + [s], steps + [step], answers + [answer])
    }
  }

  ghost predicate Traces(t: Trace, calls: seq<Call>, files: Files) {
    && Isolation.IsRun(t.states, t.steps, files) && |t.steps| == |t.answers| == |calls|
    && forall i: nat | i < |calls| :: t.steps[i].side.First? && Called(t.states[i].a, calls[i], t.answers[i], t.states[i + 1].a)
  }

  lemma TraceMore(t: Trace, calls: seq<Call>, done: nat, files: Files, answer: Answer, step: Isolation.Step, s: Isolation.Pair)
    requires done < |calls| && Traces(t, calls[..done], files) && step.side.First? && s.b == t.states[done].b
    requires Isolation.Moves(t.states[done].a, t.states[done].m, step, s.a, s.m, files)
    requires Called(t.states[done].a, calls[done], answer, s.a)
    ensures Traces(t.Then(answer, step, s), calls[..done + 1], files)
  {
    Isolation.RunMore(t.states, t.steps, files, step, s);
  }

  /** The effects of calls, one after the other. */
  ghost function Effects(pages: map<nat, PageView>, calls: seq<Call>, answers: seq<Answer>): map<nat, PageView>
    requires |calls| == |answers|
    decreases |calls|
  {
    if calls == [] then pages
    else Effect(Effects(pages, calls[..|calls| - 1], answers[..|calls| - 1]), calls[|calls| - 1], answers[|calls| - 1])
  }

  /** The pages at the end of a run of calls are the fold of their effects. */
  lemma {:induction false} PagesAreEffects(t: Trace, calls: seq<Call>, files: Files, n: nat)
    requires Traces(t, calls, files) && n <= |calls| && Tiled(t.states[0].a.owned, t.states[0].a.home)
    ensures Tiled(t.states[n].a.owned, t.states[n].a.home)
    ensures Pages(t.states[n].a.owned, t.states[n].a.home) ==
      Effects(Pages(t.states[0].a.owned, t.states[0].a.home), calls[..n], t.answers[..n])
  {
    if n > 0 {
      PagesAreEffects(t, calls, files, n - 1);
      assert calls[..n][..n - 1] == calls[..n - 1] && t.answers[..n][..n - 1] == t.answers[..n - 1];
      assert Called(t.states[n - 1].a, calls[n - 1], t.answers[n - 1], t.states[n - 1 + 1].a);
    }
  }
}
