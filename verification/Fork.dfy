/**
 What the pages of an address space contain, and what a fork does to it, page by page.
 */
module Fork {
  import opened Options
  import opened Tiling
  import opened MapAreas
  import opened AddressSpace

  type Memory = map<Frame, Page>

  /** The contents of a page: its frame, its file, or zeroes. */
  ghost function Denote(v: PageView, m: Memory, files: Files): Page
    requires v.slot.Some? ==> v.slot.value in m
  {
    match v.slot
    case Some(f) => m[f]
    case None => Filled(v.source, files)
  }

  ghost predicate FrameIn(owned: Owned, home: Home, m: Memory, p: nat)
    requires Tiled(owned, home) && p in home
  {
    View(owned, home, p).slot.Some? ==> View(owned, home, p).slot.value in m
  }

  ghost predicate FramesApart(owned: Owned, home: Home, p: nat, q: nat)
    requires Tiled(owned, home) && p in home && q in home
  {
    View(owned, home, p).slot.Some? ==> View(owned, home, p).slot != View(owned, home, q).slot
  }

  /** Resident pages have frames, and no two pages of one address space have the same. */
  ghost predicate FramesOk(owned: Owned, home: Home, m: Memory)
    requires Tiled(owned, home)
  {
    && (forall p {:trigger FrameIn(owned, home, m, p)} :: p in home ==> FrameIn(owned, home, m, p))
    && (forall p, q {:trigger FramesApart(owned, home, p, q)} :: p in home && q in home && p != q ==> FramesApart(owned, home, p, q))
  }

  /** A change after which the frames of whatever memory still fit: no page got a frame it did not have. */
  ghost predicate FramesKept(owned: Owned, home: Home, owned1: Owned, home1: Home) {
    && Tiled(owned, home) && Tiled(owned1, home1)
    && forall m: Memory {:trigger FramesOk(owned1, home1, m)} :: FramesOk(owned, home, m) ==> FramesOk(owned1, home1, m)
  }

  lemma PagesKeepFrames(owned: Owned, home: Home, owned1: Owned, home1: Home)
    requires Tiled(owned, home) && Tiled(owned1, home1)
    requires forall p | p in Pages(owned1, home1) && Pages(owned1, home1)[p].slot.Some? ::
      p in Pages(owned, home) && Pages(owned, home)[p].slot == Pages(owned1, home1)[p].slot
    ensures FramesKept(owned, home, owned1, home1)
  {
    var before, after := Pages(owned, home), Pages(owned1, home1);
    forall m: Memory | FramesOk(owned, home, m) ensures FramesOk(owned1, home1, m) {
      forall p | p in home1 ensures FrameIn(owned1, home1, m, p) {
        assert after[p].slot.Some? ==> p in before && FrameIn(owned, home, m, p);
      }
      forall p, q | p in home1 && q in home1 && p != q ensures FramesApart(owned1, home1, p, q) {
        assert after[p].slot.Some? ==> p in before;
        assert after[q].slot.Some? ==> q in before;
        assert p in home && q in home ==> FramesApart(owned, home, p, q);
      }
    }
  }

  lemma DroppedPagesKeepFrames(owned: Owned, home: Home, owned1: Owned, home1: Home, start: nat, end: nat)
    requires Tiled(owned, home) && Tiled(owned1, home1)
    requires Pages(owned1, home1) == WithoutRange(Pages(owned, home), start, end)
    ensures FramesKept(owned, home, owned1, home1)
  {
    PagesKeepFrames(owned, home, owned1, home1);
  }

  /** The end of the unmapping loop. */
  lemma SplitDone(owned0: Owned, home0: Home, e0: map<nat, Pte>, owned: Owned, home: Home, e: map<nat, Pte>,
                  start: nat, end: nat, over: seq<Area>, foreign: map<nat, Pte>)
    requires Tiled(owned0, home0) && TableOk(e0, owned0, home0, foreign) && (start >= end && start in owned0 ==> over != [])
    requires SplitSoFar(owned0, home0, e0, owned, home, e, start, end, over, |over|) && KeysFrom(over, |over|) == {}
    ensures start < end || start !in owned0 ==> Tiled(owned, home) && TableOk(e, owned, home, foreign)
    ensures start < end || start !in owned0 ==> RangeGone(e0, e, home0, start, end) && FramesKept(owned0, home0, owned, home)
    ensures start < end || start !in owned0 ==> Pages(owned, home) == WithoutRange(Pages(owned0, home0), start, end)
    ensures start >= end && start in owned0 ==> Emptied(owned0, e0, owned, e, start)
  {
    if start < end || start !in owned0 {
      PunchEnd(owned0, home0, e0, owned, home, e, start, end, foreign);
      DroppedPagesKeepFrames(owned0, home0, owned, home, start, end);
    }
  }

  lemma NewFlagsKeepFrames(owned: Owned, home: Home, owned1: Owned, home1: Home, start: nat, end: nat, flags: Flags)
    requires Tiled(owned, home) && Tiled(owned1, home1)
    requires Pages(owned1, home1) == WithFlagsIn(Pages(owned, home), start, end, flags)
    ensures FramesKept(owned, home, owned1, home1)
  {
    PagesKeepFrames(owned, home, owned1, home1);
  }

  /** A block of lazy pages brings no frames. */
  lemma LazyPagesKeepFrames(owned: Owned, home: Home, owned1: Owned, home1: Home,
                            start: nat, n: nat, shared: bool, flags: Flags, backend: Option<Backend>)
    requires Tiled(owned, home) && Tiled(owned1, home1)
    requires Pages(owned1, home1) == Pages(owned, home) + Content(LazyArea(start, n, shared, flags, backend))
    ensures FramesKept(owned, home, owned1, home1)
  {
    PagesKeepFrames(owned, home, owned1, home1);
  }

  /** Neither do pages in new frames. */
  lemma NewPagesKeepFrames(owned: Owned, home: Home, owned1: Owned, home1: Home, a: Area, data: seq<Page>, m: Memory, m1: Memory)
    requires Tiled(owned, home) && Tiled(owned1, home1) && FramesOk(owned, home, m) && HoldsNew(a.pages, data, m, m1)
    requires Pages(owned1, home1) == Pages(owned, home) + Content(a)
    ensures FramesOk(owned1, home1, m1)
  {
    forall p | p in home1 ensures FrameIn(owned1, home1, m1, p) {
      NewOrOld(owned, home, owned1, home1, a, data, m, m1, p);
    }
    forall p, q | p in home1 && q in home1 && p != q ensures FramesApart(owned1, home1, p, q) {
      NewOrOld(owned, home, owned1, home1, a, data, m, m1, p);
      NewOrOld(owned, home, owned1, home1, a, data, m, m1, q);
      if p in home && q in home { assert FramesApart(owned, home, p, q); }
    }
  }

  lemma NewOrOld(owned: Owned, home: Home, owned1: Owned, home1: Home, a: Area, data: seq<Page>, m: Memory, m1: Memory, p: nat)
    requires Tiled(owned, home) && Tiled(owned1, home1) && FramesOk(owned, home, m) && HoldsNew(a.pages, data, m, m1)
    requires Pages(owned1, home1) == Pages(owned, home) + Content(a) && p in home1
    ensures if a.Covers(p) then
      View(owned1, home1, p).slot == a.pages[p - a.vpn] && a.pages[p - a.vpn].Some? && a.pages[p - a.vpn].value !in m && a.pages[p - a.vpn].value in m1
      else p in home && View(owned1, home1, p) == View(owned, home, p) && (View(owned, home, p).slot.Some? ==> View(owned, home, p).slot.value in m && View(owned, home, p).slot.value in m1)
  {
    assert p in Pages(owned1, home1) && (p in Content(a) <==> a.Covers(p));
    if a.Covers(p) {
      assert a.pages[p - a.vpn].Some? && NewlyHolds(m, m1, a.pages[p - a.vpn].value, data[p - a.vpn]);
    } else {
      assert p in Pages(owned, home) && FrameIn(owned, home, m, p);
    }
  }

  lemma ReplaceArea(owned: Owned, home: Home, k: nat, a: Area)
    requires Tiled(owned, home) && k in owned && a.vpn == k && |a.pages| == |owned[k].pages|
    ensures Tiled(owned[k := a], home)
    ensures forall p | p in home ::
      View(owned[k := a], home, p) == if a.Covers(p) then PageAt(a, p) else View(owned, home, p)
  {
    var o1 := owned[k := a];
    assert Keyed(owned, k) && Fills(owned, home, k);
    forall j | j in o1 ensures Keyed(o1, j) && Fills(o1, home, j) {
      assert Keyed(owned, j) && Fills(owned, home, j);
    }
    forall p | p in home ensures Homed(o1, home, p) { assert Homed(owned, home, p); }
  }

  /** The frames of one area are in memory and distinct. */
  lemma AreaFrames(owned: Owned, home: Home, m: Memory, k: nat)
    requires Tiled(owned, home) && FramesOk(owned, home, m) && k in owned
    ensures Resident(owned[k].pages, m) && DistinctFrames(owned[k].pages)
  {
    var a := owned[k];
    assert Keyed(owned, k) && Fills(owned, home, k);
    forall i | 0 <= i < |a.pages| && a.pages[i].Some? ensures a.pages[i].value in m {
      assert a.Covers(k + i) && FrameIn(owned, home, m, k + i);
    }
    forall i, j | 0 <= i < j < |a.pages| && a.pages[i].Some? ensures a.pages[i] != a.pages[j] {
      assert a.Covers(k + i) && a.Covers(k + j) && FramesApart(owned, home, k + i, k + j);
    }
  }

  lemma AreaAgrees(e: map<nat, Pte>, owned: Owned, home: Home, foreign: map<nat, Pte>, k: nat)
    requires Tiled(owned, home) && TableOk(e, owned, home, foreign) && k in owned
    ensures Agrees(e, owned[k])
  {
    assert Fills(owned, home, k);
    forall p: nat | owned[k].Covers(p) ensures p in e && e[p] == PteOf(PageAt(owned[k], p)) {
      assert EntryOk(e, owned, home, foreign, p);
    }
  }

  lemma ReplacedTable(e: map<nat, Pte>, e1: map<nat, Pte>, owned: Owned, home: Home, foreign: map<nat, Pte>, k: nat, a: Area)
    requires Tiled(owned, home) && TableOk(e, owned, home, foreign) && k in owned
    requires a.vpn == k && |a.pages| == |owned[k].pages|
    requires Agrees(e1, a) && SameOutside(e, e1, a)
    ensures Tiled(owned[k := a], home) && TableOk(e1, owned[k := a], home, foreign)
  {
    ReplaceArea(owned, home, k, a);
    assert Keyed(owned, k) && Fills(owned, home, k);
    var o1 := owned[k := a];
    forall p: nat ensures EntryOk(e1, o1, home, foreign, p) {
      assert EntryOk(e, owned, home, foreign, p);
      if p in home { assert Homed(owned, home, p); }
    }
  }

  // ---------------------------------------------------------------- page faults

  /** Every page keeps its flags, its source and its contents; pages other than `p` keep their frames. */
  ghost predicate ContentsKept(owned: Owned, owned1: Owned, home: Home, m: Memory, m1: Memory, files: Files, p: nat) {
    && Tiled(owned, home) && Tiled(owned1, home)
    && forall q | q in home ::
         && View(owned1, home, q) == View(owned, home, q).(slot := View(owned1, home, q).slot)
         && (q != p ==> View(owned1, home, q) == View(owned, home, q))
         && FrameIn(owned, home, m, q) && FrameIn(owned1, home, m1, q)
         && Denote(View(owned1, home, q), m1, files) == Denote(View(owned, home, q), m, files)
  }

  /** A resident page keeps its frame; a page that becomes resident gets a frame that nobody had. */
  ghost predicate NewSlot(owned: Owned, owned1: Owned, home: Home, m: Memory, p: nat)
    requires Tiled(owned, home) && Tiled(owned1, home) && p in home
  {
    var v, v1 := View(owned, home, p), View(owned1, home, p);
    if v.slot.Some? then v1.slot == v.slot else v1.slot.Some? ==> v1.slot.value !in m
  }

  /** What a fault on page `p` does to an address space and to memory. */
  ghost predicate Faulted(owned: Owned, owned1: Owned, home: Home, m: Memory, m1: Memory, files: Files, p: nat) {
    && ContentsKept(owned, owned1, home, m, m1, files, p) && FramesOk(owned1, home, m1) && Extends(m, m1)
    && (p in home ==> NewSlot(owned, owned1, home, m, p))
  }

  lemma NothingChanged(owned: Owned, home: Home, m: Memory, files: Files, p: nat)
    requires Tiled(owned, home) && FramesOk(owned, home, m)
    ensures Faulted(owned, owned, home, m, m, files, p)
  {
    forall q | q in home ensures FrameIn(owned, home, m, q) {}
    if p in home { assert FrameIn(owned, home, m, p); }
  }

  /** A page that becomes resident shows its file, or zeroes. */
  lemma FaultShows(owned: Owned, owned1: Owned, home: Home, m: Memory, m1: Memory, files: Files, p: nat)
    requires Faulted(owned, owned1, home, m, m1, files, p) && p in home
    requires View(owned, home, p).slot.None? && View(owned1, home, p).slot.Some?
    ensures View(owned1, home, p).slot.value in m1 && View(owned1, home, p).slot.value !in m
    ensures ShowsFile(m1[View(owned1, home, p).slot.value], files, View(owned, home, p).source, 0)
  {
    assert FrameIn(owned, home, m, p) && FrameIn(owned1, home, m1, p) && NewSlot(owned, owned1, home, m, p);
    FilledShows(files, View(owned, home, p).source, 0);
    assert Denote(View(owned1, home, p), m1, files) == Denote(View(owned, home, p), m, files);
  }

  /** The new frame is in no other page. */
  lemma FaultKeepsApart(owned: Owned, home: Home, k: nat, p: nat, a: Area, m: Memory, m1: Memory, files: Files, q: nat, r: nat)
    requires Tiled(owned, home) && FramesOk(owned, home, m) && k in owned && owned[k].Covers(p)
    requires FaultedIn(owned[k], a, p, m, m1, files) && Tiled(owned[k := a], home) && q in home && r in home && q != r
    ensures FramesApart(owned[k := a], home, q, r)
  {
    assert FramesApart(owned, home, q, r) && FrameIn(owned, home, m, q) && FrameIn(owned, home, m, r);
    PagesOf(owned, home, k, q);
    PagesOf(owned, home, k, r);
    ReplaceArea(owned, home, k, a);
  }

  lemma FaultKeepsFrames(owned: Owned, home: Home, k: nat, p: nat, a: Area, m: Memory, m1: Memory, files: Files)
    requires Tiled(owned, home) && FramesOk(owned, home, m) && k in owned && owned[k].Covers(p)
    requires FaultedIn(owned[k], a, p, m, m1, files)
    ensures Tiled(owned[k := a], home) && FramesOk(owned[k := a], home, m1)
  {
    var o1 := owned[k := a];
    assert Keyed(owned, k);
    ReplaceArea(owned, home, k, a);
    forall q | q in home ensures FrameIn(o1, home, m1, q) {
      assert FrameIn(owned, home, m, q);
      PagesOf(owned, home, k, q);
    }
    forall q, r | q in home && r in home && q != r ensures FramesApart(o1, home, q, r) {
      FaultKeepsApart(owned, home, k, p, a, m, m1, files, q, r);
    }
  }

  lemma FaultKeeps(owned: Owned, home: Home, k: nat, p: nat, a: Area, m: Memory, m1: Memory, files: Files)
    requires Tiled(owned, home) && FramesOk(owned, home, m) && k in owned && owned[k].Covers(p)
    requires FaultedIn(owned[k], a, p, m, m1, files)
    ensures ContentsKept(owned, owned[k := a], home, m, m1, files, p)
  {
    var o1 := owned[k := a];
    PagesOf(owned, home, k, p);
    ReplaceArea(owned, home, k, a);
    forall q | q in home ensures View(o1, home, q) == View(owned, home, q).(slot := View(o1, home, q).slot)
      && (q != p ==> View(o1, home, q) == View(owned, home, q)) {
      PagesOf(owned, home, k, q);
    }
    forall q | q in home ensures FrameIn(owned, home, m, q) && FrameIn(o1, home, m1, q)
      && Denote(View(o1, home, q), m1, files) == Denote(View(owned, home, q), m, files) {
      assert FrameIn(owned, home, m, q);
      PagesOf(owned, home, k, q);
    }
  }

  /** The area after a fault that was allowed, or the same area after one that was not. */
  ghost predicate FaultTaken(b: Area, a: Area, p: nat, m: Memory, m1: Memory, files: Files, ok: bool) {
    b.Covers(p) && if ok then FaultedIn(b, a, p, m, m1, files) else a == b && m1 == m
  }

  /** Putting the area back after a fault. */
  lemma FaultDone(owned: Owned, home: Home, k: nat, p: nat, a: Area, m: Memory, m1: Memory, files: Files, ok: bool)
    requires Tiled(owned, home) && FramesOk(owned, home, m) && k in owned
    requires FaultTaken(owned[k], a, p, m, m1, files, ok)
    ensures Faulted(owned, owned[k := a], home, m, m1, files, p)
    ensures ok ==> p in home && View(owned[k := a], home, p).slot.Some?
    ensures !ok ==> owned[k := a] == owned
  {
    if ok {
      FaultKeeps(owned, home, k, p, a, m, m1, files);
      FaultKeepsFrames(owned, home, k, p, a, m, m1, files);
      PagesOf(owned, home, k, p);
      ReplaceArea(owned, home, k, a);
    } else {
      assert owned[k := a] == owned;
      NothingChanged(owned, home, m, files, p);
    }
  }

  // ---------------------------------------------------------------- fork

  /** One page: as the parent had it, as the parent has it now, and as the child has it. */
  ghost predicate PageForked(v: PageView, v1: PageView, c: PageView, m: Memory, m1: Memory, files: Files) {
    && v1 == v.(slot := v1.slot) && c == v.(slot := c.slot)
    && if v.shared then
         && v1.slot.Some? && c.slot == v1.slot && v1.slot.value in m1
         && (v.slot.Some? ==> v1.slot == v.slot)
         && (v.slot.None? ==> v1.slot.value !in m && m1[v1.slot.value] == Filled(v.source, files))
       else
         && v1.slot == v.slot
         && (v.slot.None? ==> c.slot.None?)
         && (v.slot.Some? ==>
               c.slot.Some? && c.slot.value !in m && c.slot.value in m1 && v.slot.value in m && m1[c.slot.value] == m[v.slot.value])
  }

  /** A forked page has the same contents in the parent before, the parent after, and the child. */
  lemma PageForkedContents(v: PageView, v1: PageView, c: PageView, m: Memory, m1: Memory, files: Files)
    requires PageForked(v, v1, c, m, m1, files) && Extends(m, m1) && (v.slot.Some? ==> v.slot.value in m)
    ensures v1.slot.Some? ==> v1.slot.value in m1
    ensures c.slot.Some? ==> c.slot.value in m1
    ensures Denote(v1, m1, files) == Denote(v, m, files) == Denote(c, m1, files)
  {
  }

  lemma PageForkedWiden(v: PageView, v1: PageView, c: PageView, m0: Memory, m: Memory, m1: Memory, m2: Memory, files: Files)
    requires PageForked(v, v1, c, m, m1, files) && Extends(m0, m) && Extends(m1, m2) && (v.slot.Some? ==> v.slot.value in m0)
    ensures PageForked(v, v1, c, m0, m2, files)
  {
  }

  lemma AreaPageForked(a: Area, a1: Area, c: Area, m: Memory, m1: Memory, files: Files, p: nat)
    requires Cloned(a, a1, c, m, m1, files) && a.Covers(p)
    ensures PageForked(PageAt(a, p), PageAt(a1, p), PageAt(c, p), m, m1, files)
  {
    assert SlotCloned(a, a1, c, m, m1, files, p - a.vpn);
  }

  ghost function Done(home: Home, done: set<nat>): Home {
    map p | p in home && home[p] in done :: home[p]
  }

  /** Page `p` while the areas keyed by `done` have been cloned. */
  ghost predicate ForkedAt(o0: Owned, o1: Owned, oc: Owned, home: Home, done: set<nat>, m0: Memory, m: Memory, files: Files,
                           p: nat)
    requires Tiled(o0, home) && Tiled(o1, home) && Tiled(oc, Done(home, done)) && p in home
  {
    if home[p] in done then
      PageForked(View(o0, home, p), View(o1, home, p), View(oc, Done(home, done), p), m0, m, files)
    else View(o1, home, p) == View(o0, home, p)
  }

  /** A private page of the child is in a frame that no page of the parent is in. */
  ghost predicate CrossAt(o1: Owned, oc: Owned, home: Home, done: set<nat>, p: nat, q: nat)
    requires Tiled(o1, home) && Tiled(oc, Done(home, done)) && p in home && q in home && home[p] in done
  {
    var c := View(oc, Done(home, done), p);
    !c.shared && c.slot.Some? ==> c.slot != View(o1, home, q).slot
  }

  ghost predicate ForkInv(o0: Owned, o1: Owned, oc: Owned, home: Home, done: set<nat>, m0: Memory, m: Memory, files: Files) {
    && Tiled(o0, home) && Tiled(o1, home) && Tiled(oc, Done(home, done))
    && done <= o0.Keys && o1.Keys == o0.Keys && oc.Keys == done
    && Extends(m0, m) && FramesOk(o0, home, m0)
    && FramesOk(o1, home, m) && FramesOk(oc, Done(home, done), m)
    && (forall k {:trigger o1[k]} :: k in o0 && k !in done ==> o1[k] == o0[k])
    && (forall p {:trigger ForkedAt(o0, o1, oc, home, done, m0, m, files, p)} :: p in home ==>
          ForkedAt(o0, o1, oc, home, done, m0, m, files, p))
    && (forall p, q {:trigger CrossAt(o1, oc, home, done, p, q)} :: p in home && q in home && home[p] in done ==>
          CrossAt(o1, oc, home, done, p, q))
  }

  lemma ForkStart(o0: Owned, home: Home, m0: Memory, files: Files)
    requires Tiled(o0, home) && FramesOk(o0, home, m0)
    ensures Done(home, {}) == map[]
    ensures ForkInv(o0, o0, map[], home, {}, m0, m0, files)
  {
  }

  /** The pages of area `k`. */
  lemma PagesOf(owned: Owned, home: Home, k: nat, p: nat)
    requires Tiled(owned, home) && k in owned
    ensures owned[k].vpn == k
    ensures owned[k].Covers(p) <==> p in home && home[p] == k
    ensures p in home && home[p] == k ==> View(owned, home, p) == PageAt(owned[k], p)
  {
    assert Keyed(owned, k) && Fills(owned, home, k);
    if p in home { assert Homed(owned, home, p); }
  }

  lemma ForkedParent(o1: Owned, home: Home, k: nat, a1: Area, p: nat)
    requires Tiled(o1, home) && k in o1 && a1.vpn == k && |a1.pages| == |o1[k].pages| && p in home
    ensures Tiled(o1[k := a1], home)
    ensures a1.Covers(p) <==> home[p] == k
    ensures View(o1[k := a1], home, p) == if a1.Covers(p) then PageAt(a1, p) else View(o1, home, p)
  {
    PagesOf(o1, home, k, p);
    ReplaceArea(o1, home, k, a1);
  }

  lemma ForkedChild(o1: Owned, oc: Owned, home: Home, done: set<nat>, k: nat, c: Area)
    requires Tiled(o1, home) && Tiled(oc, Done(home, done)) && oc.Keys == done
    requires k in o1 && k !in done && c.vpn == k && |c.pages| == |o1[k].pages|
    ensures forall p: nat :: c.Covers(p) <==> p in home && home[p] == k
    ensures Tiled(oc[k := c], Done(home, done + {k}))
    ensures forall p | p in home && home[p] in done + {k} ::
      View(oc[k := c], Done(home, done + {k}), p) == if c.Covers(p) then PageAt(c, p) else View(oc, Done(home, done), p)
  {
    assert Keyed(o1, k);
    forall p: nat ensures c.Covers(p) <==> p in home && home[p] == k { PagesOf(o1, home, k, p); }
    var h, h1 := Done(home, done), Done(home, done + {k});
    InsertArea(oc, h, c);
    assert h1 == Plus(h, c);
    forall p | p in h1 ensures View(oc[k := c], h1, p) == if c.Covers(p) then PageAt(c, p) else View(oc, h, p) {
      assert PutAt(oc, h, oc[k := c], h1, Content(c), p);
    }
  }

  // ---------------------------------------------------------------- cloning one more area

  /** One step of the fork loop: area `k` cloned as `c`, the parent's area now `a1`. */
  ghost predicate ForkStep(o0: Owned, o1: Owned, oc: Owned, home: Home, done: set<nat>,
                           m0: Memory, m: Memory, m1: Memory, files: Files,
                           k: nat, a1: Area, c: Area) {
    && ForkInv(o0, o1, oc, home, done, m0, m, files) && k in o1 && k !in done
    && a1.vpn == k && c.vpn == k && Cloned(o1[k], a1, c, m, m1, files) && Resident(o1[k].pages, m)
    && Tiled(o1[k := a1], home) && Tiled(oc[k := c], Done(home, done + {k}))
  }

  lemma ForkNextPage(o0: Owned, o1: Owned, oc: Owned, home: Home, done: set<nat>,
                     m0: Memory, m: Memory, m1: Memory, files: Files,
                     k: nat, a1: Area, c: Area, p: nat)
    requires ForkStep(o0, o1, oc, home, done, m0, m, m1, files, k, a1, c) && p in home
    ensures ForkedAt(o0, o1[k := a1], oc[k := c], home, done + {k}, m0, m1, files, p)
  {
    ForkedParent(o1, home, k, a1, p);
    ForkedChild(o1, oc, home, done, k, c);
    assert ForkedAt(o0, o1, oc, home, done, m0, m, files, p);
    assert FrameIn(o0, home, m0, p);
    if home[p] == k {
      AreaPageForked(o1[k], a1, c, m, m1, files, p);
      PageForkedWiden(PageAt(o1[k], p), PageAt(a1, p), PageAt(c, p), m0, m, m1, m1, files);
      PagesOf(o0, home, k, p);
    } else if home[p] in done {
      PageForkedWiden(View(o0, home, p), View(o1, home, p), View(oc, Done(home, done), p), m0, m0, m, m1, files);
    }
  }

  /** Where the frames of a cloned page come from. */
  lemma NewFrames(a: Area, a1: Area, c: Area, m: Memory, m1: Memory, files: Files, p: nat)
    requires Cloned(a, a1, c, m, m1, files) && Resident(a.pages, m) && a.Covers(p)
    ensures var s, s1, sc := PageAt(a, p).slot, PageAt(a1, p).slot, PageAt(c, p).slot;
      && (s.Some? ==> s.value in m) && (s1.Some? ==> s1.value in m1) && (sc.Some? ==> sc.value in m1)
      && (s1 == s || (s1.Some? && s1.value !in m))
      && (if a.shared then sc == s1 else s1 == s && (sc.Some? ==> sc.value !in m))
  {
    assert SlotCloned(a, a1, c, m, m1, files, p - a.vpn);
  }

  lemma ForkNextParentFrames(o0: Owned, o1: Owned, oc: Owned, home: Home, done: set<nat>,
                             m0: Memory, m: Memory, m1: Memory, files: Files,
                             k: nat, a1: Area, c: Area, p: nat, q: nat)
    requires ForkStep(o0, o1, oc, home, done, m0, m, m1, files, k, a1, c) && p in home && q in home && p != q
    ensures FramesApart(o1[k := a1], home, p, q) && FrameIn(o1[k := a1], home, m1, p)
  {
    ForkedParent(o1, home, k, a1, p);
    ForkedParent(o1, home, k, a1, q);
    PagesOf(o1, home, k, p);
    PagesOf(o1, home, k, q);
    assert FramesApart(o1, home, p, q) && FrameIn(o1, home, m, p) && FrameIn(o1, home, m, q);
    if home[p] == k { NewFrames(o1[k], a1, c, m, m1, files, p); }
    if home[q] == k { NewFrames(o1[k], a1, c, m, m1, files, q); }
  }

  lemma ForkNextCross(o0: Owned, o1: Owned, oc: Owned, home: Home, done: set<nat>,
                      m0: Memory, m: Memory, m1: Memory, files: Files,
                      k: nat, a1: Area, c: Area, p: nat, q: nat)
    requires ForkStep(o0, o1, oc, home, done, m0, m, m1, files, k, a1, c) && p in home && q in home && home[p] in done + {k}
    ensures CrossAt(o1[k := a1], oc[k := c], home, done + {k}, p, q)
  {
    ForkedParent(o1, home, k, a1, q);
    ForkedChild(o1, oc, home, done, k, c);
    PagesOf(o1, home, k, p);
    PagesOf(o1, home, k, q);
    assert FrameIn(o1, home, m, q);
    if home[p] == k { NewFrames(o1[k], a1, c, m, m1, files, p); }
    else { assert CrossAt(o1, oc, home, done, p, q) && FrameIn(oc, Done(home, done), m, p); }
    if home[q] == k { NewFrames(o1[k], a1, c, m, m1, files, q); }
  }

  lemma ForkNextChildFrames(o0: Owned, o1: Owned, oc: Owned, home: Home, done: set<nat>,
                            m0: Memory, m: Memory, m1: Memory, files: Files,
                            k: nat, a1: Area, c: Area, p: nat, q: nat)
    requires ForkStep(o0, o1, oc, home, done, m0, m, m1, files, k, a1, c)
    requires p in home && q in home && p != q && home[p] in done + {k} && home[q] in done + {k}
    ensures FramesApart(oc[k := c], Done(home, done + {k}), p, q) && FrameIn(oc[k := c], Done(home, done + {k}), m1, p)
  {
    ForkedChild(o1, oc, home, done, k, c);
    PagesOf(o1, home, k, p);
    PagesOf(o1, home, k, q);
    assert FramesApart(o1, home, p, q) && FramesApart(o1, home, q, p);
    var h := Done(home, done);
    if home[p] == k { NewFrames(o1[k], a1, c, m, m1, files, p); }
    else {
      assert FrameIn(oc, h, m, p) && CrossAt(o1, oc, home, done, p, q) && ForkedAt(o0, o1, oc, home, done, m0, m, files, p);
    }
    if home[q] == k { NewFrames(o1[k], a1, c, m, m1, files, q); }
    else {
      assert FrameIn(oc, h, m, q) && CrossAt(o1, oc, home, done, q, p) && ForkedAt(o0, o1, oc, home, done, m0, m, files, q);
    }
    if home[p] != k && home[q] != k { assert FramesApart(oc, h, p, q); }
  }

  lemma ParentFrameIn(o0: Owned, o1: Owned, oc: Owned, home: Home, done: set<nat>,
                      m0: Memory, m: Memory, m1: Memory, files: Files,
                      k: nat, a1: Area, c: Area, p: nat)
    requires ForkStep(o0, o1, oc, home, done, m0, m, m1, files, k, a1, c) && p in home
    ensures FrameIn(o1[k := a1], home, m1, p)
  {
    ForkedParent(o1, home, k, a1, p);
    PagesOf(o1, home, k, p);
    assert FrameIn(o1, home, m, p);
    if home[p] == k { NewFrames(o1[k], a1, c, m, m1, files, p); }
  }

  lemma ChildFrameIn(o0: Owned, o1: Owned, oc: Owned, home: Home, done: set<nat>,
                     m0: Memory, m: Memory, m1: Memory, files: Files,
                     k: nat, a1: Area, c: Area, p: nat)
    requires ForkStep(o0, o1, oc, home, done, m0, m, m1, files, k, a1, c) && p in home && home[p] in done + {k}
    ensures FrameIn(oc[k := c], Done(home, done + {k}), m1, p)
  {
    ForkedChild(o1, oc, home, done, k, c);
    PagesOf(o1, home, k, p);
    if home[p] == k { NewFrames(o1[k], a1, c, m, m1, files, p); } else { assert FrameIn(oc, Done(home, done), m, p); }
  }

  lemma ForkNextParent(o0: Owned, o1: Owned, oc: Owned, home: Home, done: set<nat>,
                       m0: Memory, m: Memory, m1: Memory, files: Files,
                       k: nat, a1: Area, c: Area)
    requires ForkStep(o0, o1, oc, home, done, m0, m, m1, files, k, a1, c)
    ensures Tiled(o1[k := a1], home) && FramesOk(o1[k := a1], home, m1)
  {
    var p1 := o1[k := a1];
    ReplaceArea(o1, home, k, a1);
    forall p, q | p in home && q in home && p != q ensures FramesApart(p1, home, p, q) {
      ForkNextParentFrames(o0, o1, oc, home, done, m0, m, m1, files, k, a1, c, p, q);
    }
    forall p | p in home ensures FrameIn(p1, home, m1, p) {
      ParentFrameIn(o0, o1, oc, home, done, m0, m, m1, files, k, a1, c, p);
    }
  }

  lemma ForkNextChild(o0: Owned, o1: Owned, oc: Owned, home: Home, done: set<nat>,
                      m0: Memory, m: Memory, m1: Memory, files: Files,
                      k: nat, a1: Area, c: Area)
    requires ForkStep(o0, o1, oc, home, done, m0, m, m1, files, k, a1, c)
    ensures Tiled(oc[k := c], Done(home, done + {k})) && FramesOk(oc[k := c], Done(home, done + {k}), m1)
  {
    var c1, h1 := oc[k := c], Done(home, done + {k});
    ForkedChild(o1, oc, home, done, k, c);
    forall p, q | p in h1 && q in h1 && p != q ensures FramesApart(c1, h1, p, q) {
      ForkNextChildFrames(o0, o1, oc, home, done, m0, m, m1, files, k, a1, c, p, q);
    }
    forall p | p in h1 ensures FrameIn(c1, h1, m1, p) {
      ChildFrameIn(o0, o1, oc, home, done, m0, m, m1, files, k, a1, c, p);
    }
  }

  lemma ForkNext(o0: Owned, o1: Owned, oc: Owned, home: Home, done: set<nat>,
                 m0: Memory, m: Memory, m1: Memory, files: Files,
                 k: nat, a1: Area, c: Area)
    requires ForkStep(o0, o1, oc, home, done, m0, m, m1, files, k, a1, c)
    ensures ForkInv(o0, o1[k := a1], oc[k := c], home, done + {k}, m0, m1, files)
  {
    var p1, c1, d1 := o1[k := a1], oc[k := c], done + {k};
    ForkNextParent(o0, o1, oc, home, done, m0, m, m1, files, k, a1, c);
    ForkNextChild(o0, o1, oc, home, done, m0, m, m1, files, k, a1, c);
    forall p | p in home ensures ForkedAt(o0, p1, c1, home, d1, m0, m1, files, p) {
      ForkNextPage(o0, o1, oc, home, done, m0, m, m1, files, k, a1, c, p);
    }
    forall p, q | p in home && q in home && home[p] in d1 ensures CrossAt(p1, c1, home, d1, p, q) {
      ForkNextCross(o0, o1, oc, home, done, m0, m, m1, files, k, a1, c, p, q);
    }
  }

  /** The child's page table after one more area. */
  lemma ChildTableNext(e: map<nat, Pte>, e1: map<nat, Pte>, o1: Owned, oc: Owned, home: Home, done: set<nat>,
                       kernel: map<nat, Pte>,
                       k: nat, c: Area)
    requires Tiled(o1, home) && Tiled(oc, Done(home, done)) && oc.Keys == done
    requires k in o1 && k !in done && c.vpn == k && |c.pages| == |o1[k].pages|
    requires TableOk(e, oc, Done(home, done), kernel) && forall p | c.Covers(p) :: p !in kernel
    requires Agrees(e1, c) && SameOutside(e, e1, c)
    ensures Tiled(oc[k := c], Done(home, done + {k})) && TableOk(e1, oc[k := c], Done(home, done + {k}), kernel)
  {
    ForkedChild(o1, oc, home, done, k, c);
    var c1, h1 := oc[k := c], Done(home, done + {k});
    forall p: nat ensures EntryOk(e1, c1, h1, kernel, p) {
      assert EntryOk(e, oc, Done(home, done), kernel, p);
    }
  }

  /** The state between two rounds of the fork loop: areas, page tables and memory. */
  ghost predicate Forking(o0: Owned, o1: Owned, oc: Owned, home: Home, done: set<nat>, m0: Memory, m: Memory, files: Files,
                          e: map<nat, Pte>, ec: map<nat, Pte>, foreign: map<nat, Pte>, kernel: map<nat, Pte>) {
    && ForkInv(o0, o1, oc, home, done, m0, m, files)
    && TableOk(e, o1, home, foreign) && TableOk(ec, oc, Done(home, done), kernel)
    && forall p | p in home :: p !in kernel
  }

  lemma ForkingKeys(o0: Owned, o1: Owned, oc: Owned, home: Home, done: set<nat>, m0: Memory, m: Memory, files: Files,
                    e: map<nat, Pte>, ec: map<nat, Pte>, foreign: map<nat, Pte>, kernel: map<nat, Pte>)
    requires Forking(o0, o1, oc, home, done, m0, m, files, e, ec, foreign, kernel)
    ensures o1.Keys == o0.Keys
  {
  }

  lemma ForkingStart(o0: Owned, home: Home, m0: Memory, files: Files, e: map<nat, Pte>, foreign: map<nat, Pte>,
                     kernel: map<nat, Pte>)
    requires Tiled(o0, home) && FramesOk(o0, home, m0) && TableOk(e, o0, home, foreign) && forall p | p in home :: p !in kernel
    ensures Done(home, {}) == map[]
    ensures Forking(o0, o0, map[], home, {}, m0, m0, files, e, kernel, foreign, kernel)
  {
    ForkStart(o0, home, m0, files);
    forall p: nat ensures EntryOk(kernel, map[], map[], kernel, p) {}
  }

  lemma CloneReady(o0: Owned, o1: Owned, oc: Owned, home: Home, done: set<nat>, m0: Memory, m: Memory, files: Files,
                   e: map<nat, Pte>, ec: map<nat, Pte>, foreign: map<nat, Pte>, kernel: map<nat, Pte>, k: nat)
    requires Forking(o0, o1, oc, home, done, m0, m, files, e, ec, foreign, kernel) && k in o1 && k !in done
    ensures o1[k].vpn == k && Resident(o1[k].pages, m) && DistinctFrames(o1[k].pages) && Agrees(e, o1[k])
    ensures forall p | o1[k].Covers(p) :: p !in ec
  {
    AreaFrames(o1, home, m, k);
    AreaAgrees(e, o1, home, foreign, k);
    assert Keyed(o1, k);
    forall p: nat | o1[k].Covers(p) ensures p !in ec {
      PagesOf(o1, home, k, p);
      assert EntryOk(ec, oc, Done(home, done), kernel, p);
    }
  }

  lemma CloneDone(o0: Owned, o1: Owned, oc: Owned, home: Home, done: set<nat>,
                  m0: Memory, m: Memory, m1: Memory, files: Files,
                  e: map<nat, Pte>, e1: map<nat, Pte>, ec: map<nat, Pte>, ec1: map<nat, Pte>, foreign: map<nat, Pte>,
                  kernel: map<nat, Pte>,
                  k: nat, a1: Area, c: Area, o2: Owned, oc2: Owned)
    requires Forking(o0, o1, oc, home, done, m0, m, files, e, ec, foreign, kernel) && k in o1 && k !in done
    requires Cloned(o1[k], a1, c, m, m1, files)
    requires Agrees(e1, a1) && SameOutside(e, e1, a1) && Agrees(ec1, c) && SameOutside(ec, ec1, a1)
    requires o2 == o1[k := a1] && oc2 == oc[k := c]
    ensures Forking(o0, o2, oc2, home, done + {k}, m0, m1, files, e1, ec1, foreign, kernel)
  {
    CloneReady(o0, o1, oc, home, done, m0, m, files, e, ec, foreign, kernel, k);
    forall p: nat | c.Covers(p) ensures p !in kernel { PagesOf(o1, home, k, p); }
    ReplacedTable(e, e1, o1, home, foreign, k, a1);
    ChildTableNext(ec, ec1, o1, oc, home, done, kernel, k, c);
    ForkNext(o0, o1, oc, home, done, m0, m, m1, files, k, a1, c);
  }

  // ---------------------------------------------------------------- what a fork guarantees

  /** Parent before, parent after and child: same pages, same flags and contents, shared pages in the same
      frame, private resident pages in frames of their own. */
  ghost predicate Forked(o0: Owned, o1: Owned, oc: Owned, home: Home, m0: Memory, m: Memory, files: Files) {
    && Tiled(o0, home) && Tiled(o1, home) && Tiled(oc, home) && Extends(m0, m)
    && FramesOk(o0, home, m0) && FramesOk(o1, home, m) && FramesOk(oc, home, m)
    && (forall p | p in home ::
          var v, v1, c := View(o0, home, p), View(o1, home, p), View(oc, home, p);
          && v1 == v.(slot := v1.slot) && c == v.(slot := c.slot)
          && (v.slot.Some? ==> v.slot.value in m0) && (v1.slot.Some? ==> v1.slot.value in m) && (c.slot.Some? ==> c.slot.value in m)
          && Denote(v1, m, files) == Denote(v, m0, files) == Denote(c, m, files)
          && (v.shared ==> c.slot.Some? && c.slot == v1.slot)
          && (!v.shared ==> v1.slot == v.slot && (c.slot.Some? <==> v.slot.Some?)))
    && (forall p, q {:trigger View(oc, home, p), View(o1, home, q)} | p in home && q in home ::
          !View(oc, home, p).shared && View(oc, home, p).slot.Some? ==> View(oc, home, p).slot != View(o1, home, q).slot)
  }

  lemma ForkEnd(o0: Owned, o1: Owned, oc: Owned, home: Home, m0: Memory, m: Memory, files: Files)
    requires ForkInv(o0, o1, oc, home, o0.Keys, m0, m, files)
    ensures Done(home, o0.Keys) == home && Forked(o0, o1, oc, home, m0, m, files)
  {
    assert forall p | p in home :: Homed(o0, home, p);
    var h := Done(home, o0.Keys);
    assert h == home;
    forall p | p in home ensures
      var v, v1, c := View(o0, home, p), View(o1, home, p), View(oc, home, p);
      && v1 == v.(slot := v1.slot) && c == v.(slot := c.slot)
      && (v.slot.Some? ==> v.slot.value in m0) && (v1.slot.Some? ==> v1.slot.value in m) && (c.slot.Some? ==> c.slot.value in m)
      && Denote(v1, m, files) == Denote(v, m0, files) == Denote(c, m, files)
      && (v.shared ==> c.slot.Some? && c.slot == v1.slot)
      && (!v.shared ==> v1.slot == v.slot && (c.slot.Some? <==> v.slot.Some?))
    {
      assert ForkedAt(o0, o1, oc, home, o0.Keys, m0, m, files, p) && FrameIn(o0, home, m0, p);
      PageForkedContents(View(o0, home, p), View(o1, home, p), View(oc, home, p), m0, m, files);
    }
    forall p, q | p in home && q in home && !View(oc, home, p).shared && View(oc, home, p).slot.Some?
      ensures View(oc, home, p).slot != View(o1, home, q).slot
    {
      assert CrossAt(o1, oc, home, o0.Keys, p, q);
    }
  }

  /** A process before and after: every page keeps its flags, its source, its contents and, if it had one, its frame. */
  ghost predicate ParentKept(o0: Owned, o1: Owned, home: Home, m0: Memory, m: Memory, files: Files) {
    && Tiled(o0, home) && Tiled(o1, home) && Extends(m0, m) && FramesOk(o0, home, m0) && FramesOk(o1, home, m)
    && forall p | p in home ::
         && View(o1, home, p) == View(o0, home, p).(slot := View(o1, home, p).slot)
         && FrameIn(o0, home, m0, p) && FrameIn(o1, home, m, p)
         && (View(o0, home, p).slot.Some? ==> View(o1, home, p).slot == View(o0, home, p).slot)
         && Denote(View(o1, home, p), m, files) == Denote(View(o0, home, p), m0, files)
  }

  /** A fork that ends early has kept the parent. */
  lemma ForkGivenUp(o0: Owned, o1: Owned, oc: Owned, home: Home, done: set<nat>, m0: Memory, m: Memory, files: Files)
    requires ForkInv(o0, o1, oc, home, done, m0, m, files)
    ensures ParentKept(o0, o1, home, m0, m, files)
  {
    forall p | p in home ensures
      && View(o1, home, p) == View(o0, home, p).(slot := View(o1, home, p).slot)
      && FrameIn(o0, home, m0, p) && FrameIn(o1, home, m, p)
      && (View(o0, home, p).slot.Some? ==> View(o1, home, p).slot == View(o0, home, p).slot)
      && Denote(View(o1, home, p), m, files) == Denote(View(o0, home, p), m0, files)
    {
      assert ForkedAt(o0, o1, oc, home, done, m0, m, files, p) && FrameIn(o0, home, m0, p) && FrameIn(o1, home, m, p);
      if home[p] in done {
        PageForkedContents(View(o0, home, p), View(o1, home, p), View(oc, Done(home, done), p), m0, m, files);
      }
    }
  }

  /** After a fork, a write to a private resident page of either process is invisible in the other. */
  lemma PrivateWriteInvisible(o0: Owned, o1: Owned, oc: Owned, home: Home, m0: Memory, m: Memory, files: Files,
                              p: nat, q: nat, data: Page)
    requires Forked(o0, o1, oc, home, m0, m, files) && p in home && q in home
    requires !View(o0, home, p).shared
    ensures View(o1, home, p).slot.Some? ==>
      var m1 := m[View(o1, home, p).slot.value := data];
      Denote(View(oc, home, q), m1, files) == Denote(View(oc, home, q), m, files)
    ensures View(oc, home, p).slot.Some? ==>
      var m1 := m[View(oc, home, p).slot.value := data];
      Denote(View(o1, home, q), m1, files) == Denote(View(o1, home, q), m, files)
  {
    var v, v1, c := View(o0, home, q), View(o1, home, q), View(oc, home, q);
    assert View(o1, home, p).shared == View(o0, home, p).shared;
    if p != q { assert FramesApart(o1, home, p, q); }
  }
}
