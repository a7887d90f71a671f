/**
 The page table, physical pages, and one area of the address space with the operations that edit it in place.
 */
module MapAreas {
  import opened Options
  import opened Scripts
  import opened Tiling

  type Page = seq<bv8>

  const ZEROES: Page := seq(PAGE_SIZE, _ => 0)

  /** What reading a page of a backing file leaves in a fresh page, by (file, offset); None if the read fails. */
  type Files = (FileId, nat) -> Option<Page>

  predicate InRange(p: nat, start: nat, n: nat) {
    start <= p < start + n
  }

  function WithFlags(e: Pte, flags: Flags): Pte {
    e.(flags := flags)
  }

  /** The page table as the map it denotes.  Mapping a mapped page or unmapping an unmapped one is an error
      that every caller unwraps. */
  class PageTable {
    var entries: map<nat, Pte>

    constructor (kernel: map<nat, Pte>)
      ensures entries == kernel
    {
      entries := kernel;
    }

    method Map(p: nat, frame: Frame, flags: Flags)
      requires p !in entries
      modifies this
      ensures entries == old(entries)[p := Mapped(frame, flags)]
    {
      entries := entries[p := Mapped(frame, flags)];
    }

    method MapFault(p: nat, flags: Flags)
      requires p !in entries
      modifies this
      ensures entries == old(entries)[p := Fault(flags)]
    {
      entries := entries[p := Fault(flags)];
    }

    method MapOverwrite(p: nat, frame: Frame, flags: Flags)
      modifies this
      ensures entries == old(entries)[p := Mapped(frame, flags)]
    {
      entries := entries[p := Mapped(frame, flags)];
    }

    method MapRegion(start: nat, first: Frame, n: nat, flags: Flags)
      requires forall p | InRange(p, start, n) :: p !in entries
      modifies this
      ensures entries.Keys == old(entries).Keys + set p | start <= p < start + n && InRange(p, start, n)
      ensures forall p | p in entries ::
        entries[p] == if InRange(p, start, n) then Mapped(first + (p - start), flags) else old(entries)[p]
    {
      entries := entries + map p | start <= p < start + n && InRange(p, start, n) :: Mapped(first + (p - start), flags);
    }

    method MapFaultRegion(start: nat, n: nat, flags: Flags)
      requires forall p | InRange(p, start, n) :: p !in entries
      modifies this
      ensures entries.Keys == old(entries).Keys + set p | start <= p < start + n && InRange(p, start, n)
      ensures forall p | p in entries :: entries[p] == if InRange(p, start, n) then Fault(flags) else old(entries)[p]
    {
      entries := entries + map p | start <= p < start + n && InRange(p, start, n) :: Fault(flags);
    }

    method UnmapRegion(start: nat, n: nat)
      requires forall p | InRange(p, start, n) :: p in entries
      modifies this
      ensures forall p :: p in entries <==> p in old(entries) && !InRange(p, start, n)
      ensures forall p | p in entries :: entries[p] == old(entries)[p]
    {
      entries := map p | p in entries && !InRange(p, start, n) :: entries[p];
    }

    method UpdateRegion(start: nat, n: nat, flags: Flags)
      requires forall p | InRange(p, start, n) :: p in entries
      modifies this
      ensures entries.Keys == old(entries).Keys
      ensures forall p | p in entries ::
        entries[p] == if InRange(p, start, n) then WithFlags(old(entries)[p], flags) else old(entries)[p]
    {
      entries := map p | p in entries :: if InRange(p, start, n) then WithFlags(entries[p], flags) else entries[p];
    }
  }

  ghost predicate NewlyHolds(m: map<Frame, Page>, m1: map<Frame, Page>, f: Frame, page: Page) {
    f !in m && f in m1 && m1[f] == page
  }

  function WithRun(m: map<Frame, Page>, first: Frame, data: seq<Page>): map<Frame, Page> {
    m + map f | first <= f < first + |data| && InRange(f, first, |data|) :: data[f - first]
  }

  lemma RunHolds(m: map<Frame, Page>, first: Frame, data: seq<Page>)
    requires forall f | f in m :: f < first
    ensures Extends(m, WithRun(m, first, data)) && forall f | f in WithRun(m, first, data) :: f < first + |data|
    ensures forall i | 0 <= i < |data| :: NewlyHolds(m, WithRun(m, first, data), first + i, data[i])
  {
    forall i | 0 <= i < |data| ensures NewlyHolds(m, WithRun(m, first, data), first + i, data[i]) {
      assert InRange(first + i, first, |data|);
    }
  }

  /** How an operation ends; `Stopped` is where the code unwraps an error or an assert fails. */
  datatype Attempt<+T> = Got(value: T) | NoMemory | Stopped

  /** Physical pages.  A frame is never handed out twice; any allocation may fail. */
  class PhysMem {
    var content: map<Frame, Page>
    var next: Frame
    /** Which of the coming allocations fail. */
    var refuse: seq<bool>

    ghost predicate Valid()
      reads this
    {
      forall f | f in content :: f < next
    }

    constructor (refuse: seq<bool>)
      ensures Valid() && content == map[] && this.refuse == refuse
    {
      content, next, this.refuse := map[], 0, refuse;
    }

    method Refused() returns (no: bool)
      modifies this`refuse
      ensures Used(old(refuse), refuse) && (no <==> !Clean(old(refuse), refuse))
    {
      no, refuse := Fails(refuse), Later(refuse);
    }

    method Alloc(data: Page) returns (r: Option<Frame>)
      requires Valid()
      modifies this
      ensures Valid() && Used(old(refuse), refuse) && (r.Some? <==> Clean(old(refuse), refuse))
      ensures r.None? ==> content == old(content)
      ensures r.Some? ==> r.value !in old(content) && content == old(content)[r.value := data]
    {
      var no := Refused();
      if no { return None; }
      r := Some(next);
      content, next := content[next := data], next + 1;
    }

    /** A store by the processor. */
    method Store(f: Frame, data: Page)
      requires Valid() && f in content
      modifies this`content
      ensures Valid() && content == old(content)[f := data]
    {
      content := content[f := data];
    }

    method AllocContiguous(data: seq<Page>) returns (r: Option<Frame>)
      requires Valid()
      modifies this
      ensures Valid() && Extends(old(content), content) && Used(old(refuse), refuse) && (r.Some? <==> Clean(old(refuse), refuse))
      ensures r.None? ==> content == old(content)
      ensures r.Some? ==> forall i | 0 <= i < |data| :: NewlyHolds(old(content), content, r.value + i, data[i])
    {
      var no := Refused();
      if no { return None; }
      RunHolds(content, next, data);
      r := Some(next);
      content, next := WithRun(content, next, data), next + |data|;
    }
  }

  /** What a lazily mapped page is filled with: zeroes without a file and after a failed read. */
  function Filled(source: Option<Backend>, files: Files): Page {
    match source
    case None => ZEROES
    case Some(b) => if files(b.file, b.offset).Some? then files(b.file, b.offset).value else ZEROES
  }

  ghost predicate AllZero(page: Page) {
    |page| == 4096 && forall j | 0 <= j < |page| :: page[j] == 0
  }

  /** What page `i` of a mapping of `backend` shows at first: the file 4096 * i bytes further on, or zeroes without a
      file and where the file cannot be read. */
  ghost predicate ShowsFile(page: Page, files: Files, backend: Option<Backend>, i: nat) {
    match backend
    case None => AllZero(page)
    case Some(b) =>
      match files(b.file, b.offset + i * 4096)
      case Some(data) => page == data
      case None => AllZero(page)
  }

  lemma FilledShows(files: Files, backend: Option<Backend>, i: nat)
    ensures ShowsFile(Filled(Shift(backend, i), files), files, backend, i)
  {
  }

  /** How a fault is answered: it needs a frame only for an access that is allowed to a page that is lazy, and the
      code stops if and only if it gets none. */
  ghost predicate FaultAnswer(before: seq<bool>, after: seq<bool>, allowed: bool, isLazy: bool, r: Attempt<bool>) {
    && Used(before, after) && (if Clean(before, after) then r == Got(allowed) else r == Stopped)
    && ((allowed && isLazy) || after == before)
  }

  /** `a` is `b` with page `p` made resident in a new frame, or unchanged if it was resident. */
  ghost predicate FaultedIn(b: Area, a: Area, p: nat, m: map<Frame, Page>, m1: map<Frame, Page>, files: Files)
    requires b.Covers(p)
  {
    if b.pages[p - b.vpn].Some? then a == b && m1 == m
    else
      exists f: Frame ::
        f !in m && a == b.(pages := b.pages[p - b.vpn := Some(f)]) && m1 == m[f := Filled(PageAt(b, p).source, files)]
  }

  lemma FaultedSlots(b: Area, a: Area, i: nat, m: map<Frame, Page>, m1: map<Frame, Page>, files: Files)
    requires i < |b.pages| && FaultedIn(b, a, b.vpn + i, m, m1, files) && Resident(b.pages, m) && DistinctFrames(b.pages)
    ensures |a.pages| == |b.pages| && a.pages[i].Some? && a.pages == b.pages[i := a.pages[i]]
    ensures b.pages[i].Some? ==> a.pages[i] == b.pages[i]
    ensures b.pages[i].None? ==> NewlyHolds(m, m1, a.pages[i].value, Filled(Shift(b.backend, i), files))
    ensures Resident(a.pages, m1) && DistinctFrames(a.pages)
  {
    assert b.Covers(b.vpn + i);
    assert b.pages[i].Some? ==> a.pages == b.pages[i := b.pages[i]];
  }

  /** Slot `i` is resident, in a new frame with the contents of its file if it was lazy; no other slot changed. */
  ghost predicate LoadedOne(before: seq<Option<Frame>>, after: seq<Option<Frame>>, backend: Option<Backend>,
                            m: map<Frame, Page>, m1: map<Frame, Page>, files: Files, i: nat) {
    && i < |before| == |after| && Extends(m, m1) && after[i].Some? && after == before[i := after[i]]
    && (before[i].Some? ==> after[i] == before[i])
    && (before[i].None? ==> NewlyHolds(m, m1, after[i].value, Filled(Shift(backend, i), files)))
  }

  /** The first `n` slots are. */
  ghost predicate Loaded(before: seq<Option<Frame>>, after: seq<Option<Frame>>, backend: Option<Backend>,
                         m: map<Frame, Page>, m1: map<Frame, Page>, files: Files, n: nat) {
    && n <= |before| == |after| && Extends(m, m1) && after[n..] == before[n..]
    && (forall j | 0 <= j < n :: after[j].Some? && (before[j].Some? ==> after[j] == before[j]))
    && (forall j | 0 <= j < n && before[j].None? :: NewlyHolds(m, m1, after[j].value, Filled(Shift(backend, j), files)))
  }

  lemma LoadedNext(first: seq<Option<Frame>>, before: seq<Option<Frame>>, after: seq<Option<Frame>>, backend: Option<Backend>,
                   m0: map<Frame, Page>, m: map<Frame, Page>, m1: map<Frame, Page>, files: Files, n: nat)
    requires Loaded(first, before, backend, m0, m, files, n) && n < |first| && LoadedOne(before, after, backend, m, m1, files, n)
    ensures Loaded(first, after, backend, m0, m1, files, n + 1)
  {
    assert before[n] == before[n..][0] == first[n];
    assert after[n + 1..] == before[n..][1..] == first[n..][1..] == first[n + 1..];
    forall j | 0 <= j < n + 1 ensures after[j].Some? && (first[j].Some? ==> after[j] == first[j]) {
      if j < n { assert after[j] == before[j]; }
    }
    forall j | 0 <= j < n + 1 && first[j].None? ensures NewlyHolds(m0, m1, after[j].value, Filled(Shift(backend, j), files)) {
      if j < n { assert after[j] == before[j] && NewlyHolds(m0, m, after[j].value, Filled(Shift(backend, j), files)); }
    }
  }

  // ---------------------------------------------------------------- what cloning an area means

  /** Page `i` of the area `a` before, the area `a1` after, and the child's area `c`: a shared page is made
      resident and used by both; a private resident page is copied to a new frame, a lazy one stays lazy. */
  ghost predicate SlotCloned(a: Area, a1: Area, c: Area, m: map<Frame, Page>, m1: map<Frame, Page>, files: Files, i: nat)
    requires i < |a.pages| == |a1.pages| == |c.pages|
  {
    if a.shared then
      && a1.pages[i].Some? && c.pages[i] == a1.pages[i] && a1.pages[i].value in m1
      && (a.pages[i].Some? ==> a1.pages[i] == a.pages[i])
      && (a.pages[i].None? ==>
            a1.pages[i].value !in m && m1[a1.pages[i].value] == Filled(Shift(a.backend, i), files))
    else
      && a1.pages[i] == a.pages[i]
      && (a.pages[i].None? ==> c.pages[i].None?)
      && (a.pages[i].Some? ==>
            c.pages[i].Some? && c.pages[i].value !in m && c.pages[i].value in m1
            && a.pages[i].value in m && m1[c.pages[i].value] == m[a.pages[i].value])
  }

  ghost predicate DistinctFrames(pages: seq<Option<Frame>>) {
    forall i, j | 0 <= i < j < |pages| && pages[i].Some? :: pages[i] != pages[j]
  }

  ghost predicate Extends(m: map<Frame, Page>, m1: map<Frame, Page>) {
    forall f | f in m :: f in m1 && m1[f] == m[f]
  }

  ghost predicate Cloned(a: Area, a1: Area, c: Area, m: map<Frame, Page>, m1: map<Frame, Page>, files: Files) {
    && |a1.pages| == |c.pages| == |a.pages|
    && a1 == a.(pages := a1.pages) && c == a.(pages := c.pages)
    && Extends(m, m1)
    && (forall i | 0 <= i < |a.pages| :: SlotCloned(a, a1, c, m, m1, files, i))
    && DistinctFrames(a1.pages) && DistinctFrames(c.pages)
  }

  ghost predicate Resident(pages: seq<Option<Frame>>, m: map<Frame, Page>) {
    forall i | 0 <= i < |pages| && pages[i].Some? :: pages[i].value in m
  }

  /** The page table shows the pages of `a`. */
  ghost predicate Agrees(entries: map<nat, Pte>, a: Area) {
    forall p | a.Covers(p) :: p in entries && entries[p] == PteOf(PageAt(a, p))
  }

  ghost predicate SameOutside(e: map<nat, Pte>, e1: map<nat, Pte>, a: Area) {
    forall p | !a.Covers(p) :: (p in e <==> p in e1) && (p in e ==> e[p] == e1[p])
  }

  /** Whether an area is shared does not show in the page table. */
  lemma SharedAgrees(e: map<nat, Pte>, e1: map<nat, Pte>, a: Area, shared: bool)
    requires Agrees(e1, a) && SameOutside(e, e1, a)
    ensures Agrees(e1, a.(shared := shared)) && SameOutside(e, e1, a.(shared := shared))
  {
    var b := a.(shared := shared);
    forall p | b.Covers(p) ensures p in e1 && e1[p] == PteOf(PageAt(b, p)) {
      assert a.Covers(p) && PteOf(PageAt(b, p)) == PteOf(PageAt(a, p));
    }
    forall p | !b.Covers(p) ensures (p in e <==> p in e1) && (p in e ==> e[p] == e1[p]) { assert !a.Covers(p); }
  }

  ghost predicate MapsAt(e: map<nat, Pte>, e1: map<nat, Pte>, vpn: nat, slots: seq<Option<Frame>>, flags: Flags, p: nat) {
    if vpn <= p < vpn + |slots| then p in e1 && e1[p] == Entry(slots[p - vpn], flags)
    else (p in e <==> p in e1) && (p in e ==> e[p] == e1[p])
  }

  /** `e1` is `e` with the slots mapped from page `vpn` on. */
  ghost predicate MapsSlots(e: map<nat, Pte>, e1: map<nat, Pte>, vpn: nat, slots: seq<Option<Frame>>, flags: Flags) {
    forall p: nat {:trigger MapsAt(e, e1, vpn, slots, flags, p)} :: MapsAt(e, e1, vpn, slots, flags, p)
  }

  lemma MapsOneMore(e: map<nat, Pte>, e1: map<nat, Pte>, vpn: nat, slots: seq<Option<Frame>>, flags: Flags, slot: Option<Frame>)
    requires MapsSlots(e, e1, vpn, slots, flags)
    ensures MapsSlots(e, e1[vpn + |slots| := Entry(slot, flags)], vpn, slots + [slot], flags)
  {
    var e2 := e1[vpn + |slots| := Entry(slot, flags)];
    forall p: nat ensures MapsAt(e, e2, vpn, slots + [slot], flags, p) {
      assert MapsAt(e, e1, vpn, slots, flags, p);
    }
  }

  lemma MapsAll(e: map<nat, Pte>, e1: map<nat, Pte>, a: Area)
    requires MapsSlots(e, e1, a.vpn, a.pages, a.flags)
    ensures Agrees(e1, a) && SameOutside(e, e1, a)
  {
    forall p: nat | a.Covers(p) ensures p in e1 && e1[p] == PteOf(PageAt(a, p)) {
      assert MapsAt(e, e1, a.vpn, a.pages, a.flags, p);
    }
    forall p: nat | !a.Covers(p) ensures (p in e <==> p in e1) && (p in e ==> e[p] == e1[p]) {
      assert MapsAt(e, e1, a.vpn, a.pages, a.flags, p);
    }
  }

  /** Slot `j` of the copy is in a new frame with the contents of slot `j` of the original. */
  ghost predicate CopiedAt(pages: seq<Option<Frame>>, slots: seq<Option<Frame>>, m: map<Frame, Page>, m1: map<Frame, Page>, j: nat)
    requires j < |slots| <= |pages|
  {
    && (slots[j].Some? <==> pages[j].Some?)
    && (slots[j].Some? ==>
          slots[j].value !in m && slots[j].value in m1 && pages[j].value in m && m1[slots[j].value] == m[pages[j].value])
  }

  ghost predicate Copied(pages: seq<Option<Frame>>, slots: seq<Option<Frame>>, m: map<Frame, Page>, m1: map<Frame, Page>) {
    && |slots| <= |pages| && Extends(m, m1) && DistinctFrames(slots)
    && (forall j {:trigger CopiedAt(pages, slots, m, m1, j)} :: 0 <= j < |slots| ==> CopiedAt(pages, slots, m, m1, j))
  }

  lemma CopiedOneMore(pages: seq<Option<Frame>>, slots: seq<Option<Frame>>, m: map<Frame, Page>, m1: map<Frame, Page>,
                      m2: map<Frame, Page>, slot: Option<Frame>)
    requires Copied(pages, slots, m, m1) && |slots| < |pages| && Extends(m1, m2)
    requires slot.Some? <==> pages[|slots|].Some?
    requires slot.Some? ==>
      slot.value !in m1 && slot.value in m2 && pages[|slots|].value in m && m2[slot.value] == m[pages[|slots|].value]
    ensures Copied(pages, slots + [slot], m, m2)
  {
    forall j | 0 <= j < |slots| + 1 ensures CopiedAt(pages, slots + [slot], m, m2, j) {
      if j < |slots| { assert CopiedAt(pages, slots, m, m1, j); }
    }
    forall i, j | 0 <= i < j < |slots| + 1 && (slots + [slot])[i].Some? ensures (slots + [slot])[i] != (slots + [slot])[j] {
      if j == |slots| { assert CopiedAt(pages, slots, m, m1, i); }
    }
  }

  function Run(first: Frame, n: nat): (s: seq<Option<Frame>>)
    ensures |s| == n && forall i | 0 <= i < n :: s[i] == Some(first + i)
  {
    seq(n, i requires 0 <= i < n => Some(first + i))
  }

  /** The frames of `slots` are new and hold `data`. */
  ghost predicate HoldsNew(slots: seq<Option<Frame>>, data: seq<Page>, m: map<Frame, Page>, m1: map<Frame, Page>) {
    && |slots| == |data| && Extends(m, m1) && DistinctFrames(slots)
    && forall i | 0 <= i < |data| :: slots[i].Some? && NewlyHolds(m, m1, slots[i].value, data[i])
  }

  lemma CopiedToRun(pages: seq<Option<Frame>>, data: seq<Page>, slots: seq<Option<Frame>>, m: map<Frame, Page>, m1: map<Frame, Page>)
    requires |data| == |pages| && HoldsNew(slots, data, m, m1)
    requires forall i | 0 <= i < |pages| :: pages[i].Some? && pages[i].value in m && data[i] == m[pages[i].value]
    ensures Copied(pages, slots, m, m1)
  {
    forall j | 0 <= j < |pages| ensures CopiedAt(pages, slots, m, m1, j) {
      assert slots[j].Some? && NewlyHolds(m, m1, slots[j].value, data[j]);
    }
  }

  /** Mapping a region to a run of frames maps its slots. */
  lemma RunMapped(e: map<nat, Pte>, e1: map<nat, Pte>, start: nat, first: Frame, n: nat, flags: Flags)
    requires e1.Keys == e.Keys + set p | start <= p < start + n && InRange(p, start, n)
    requires forall p | p in e1 :: e1[p] == if InRange(p, start, n) then Mapped(first + (p - start), flags) else e[p]
    ensures MapsSlots(e, e1, start, Run(first, n), flags)
  {
    forall p: nat ensures MapsAt(e, e1, start, Run(first, n), flags, p) {
      assert InRange(p, start, n) <==> start <= p < start + n;
    }
  }

  lemma CopiedAll(a: Area, c: Area, m: map<Frame, Page>, m1: map<Frame, Page>, files: Files)
    requires !a.shared && c == a.(pages := c.pages) && |c.pages| == |a.pages| && DistinctFrames(a.pages)
    requires Copied(a.pages, c.pages, m, m1)
    ensures Cloned(a, a, c, m, m1, files)
  {
    forall i | 0 <= i < |a.pages| ensures SlotCloned(a, a, c, m, m1, files, i) {
      assert CopiedAt(a.pages, c.pages, m, m1, i);
    }
  }

  /** An area taken out of the memory set and edited in place. */
  class MapArea {
    var pages: seq<Option<Frame>>
    var vpn: nat
    var shared: bool
    var flags: Flags
    var backend: Option<Backend>

    ghost function View(): Area
      reads this
    {
      Area(pages, vpn, shared, flags, backend)
    }

    function Value(): (a: Area)
      reads this
      ensures a == View()
    {
      Area(pages, vpn, shared, flags, backend)
    }

    constructor (a: Area)
      ensures View() == a
    {
      pages, vpn, shared, flags, backend := a.pages, a.vpn, a.shared, a.flags, a.backend;
    }

    /** A lazy area: fault entries in the page table, no frames. */
    constructor Lazy(start: nat, n: nat, flags: Flags, backend: Option<Backend>, pt: PageTable)
      requires forall p | InRange(p, start, n) :: p !in pt.entries
      modifies pt
      ensures View() == Area(seq(n, _ => None), start, false, flags, backend)
      ensures pt.entries.Keys == old(pt.entries).Keys + set p | start <= p < start + n && InRange(p, start, n)
      ensures forall p | p in pt.entries :: pt.entries[p] == if InRange(p, start, n) then Fault(flags) else old(pt.entries)[p]
    {
      var slots: seq<Option<Frame>> := [];
      for i := 0 to n
        invariant slots == seq(i, _ => None)
      {
        slots := slots + [None];
      }
      pages, vpn, shared, this.flags, this.backend := slots, start, false, flags, backend;
      new;
      pt.MapFaultRegion(start, n, flags);
    }

    method SetShared(shared: bool)
      modifies this`shared
      ensures this.shared == shared
    {
      this.shared := shared;
    }

    method Dealloc(pt: PageTable)
      requires forall p | View().Covers(p) :: p in pt.entries
      modifies this`pages, pt
      ensures pages == []
      ensures forall p :: p in pt.entries <==> p in old(pt.entries) && !old(View()).Covers(p)
      ensures forall p | p in pt.entries :: pt.entries[p] == old(pt.entries)[p]
    {
      assert forall p | InRange(p, vpn, |pages|) :: View().Covers(p);
      assert forall p :: InRange(p, vpn, |pages|) <==> View().Covers(p);
      pt.UnmapRegion(vpn, |pages|);
      pages := [];
    }

    /** Drops the pages below `newStart`. */
    method ShrinkLeft(newStart: nat, pt: PageTable)
      requires vpn <= newStart <= vpn + |pages|
      requires forall p | View().Covers(p) :: p in pt.entries
      modifies this, pt
      ensures View() == Cut(old(View()), newStart, old(View()).End())
      ensures forall p :: p in pt.entries <==> p in old(pt.entries) && !(old(View()).vpn <= p < newStart)
      ensures forall p | p in pt.entries :: pt.entries[p] == old(pt.entries)[p]
    {
      assert forall p | InRange(p, vpn, newStart - vpn) :: View().Covers(p);
      var deleted := newStart - vpn;
      backend := Shift(backend, deleted);
      pages := pages[deleted..];
      pt.UnmapRegion(vpn, deleted);
      vpn := newStart;
    }

    /** Drops the pages from `newEnd` on. */
    method ShrinkRight(newEnd: nat, pt: PageTable)
      requires vpn <= newEnd <= vpn + |pages|
      requires forall p | View().Covers(p) :: p in pt.entries
      modifies this, pt
      ensures View() == Cut(old(View()), old(vpn), newEnd)
      ensures forall p :: p in pt.entries <==> p in old(pt.entries) && !(newEnd <= p < old(View()).End())
      ensures forall p | p in pt.entries :: pt.entries[p] == old(pt.entries)[p]
    {
      var deleted := vpn + |pages| - newEnd;
      assert forall p | InRange(p, newEnd, deleted) :: View().Covers(p);
      pages := pages[..|pages| - deleted];
      pt.UnmapRegion(newEnd, deleted);
    }

    /** Keeps [vpn, at) and returns [at, end). */
    method Split(at: nat) returns (right: MapArea)
      requires vpn <= at <= vpn + |pages|
      modifies this
      ensures fresh(right)
      ensures View() == Cut(old(View()), old(vpn), at)
      ensures right.View() == Cut(old(View()), at, old(View()).End())
    {
      var rightCount := vpn + |pages| - at;
      var rightPages := pages[|pages| - rightCount..];
      pages := pages[..|pages| - rightCount];
      right := new MapArea(Area(rightPages, at, shared, flags, Shift(backend, at - vpn)));
    }

    /** Keeps [vpn, start) and returns [start, end) and [end, ..). */
    method Split3(start: nat, end: nat) returns (mid: MapArea, right: MapArea)
      requires vpn < start < end < vpn + |pages|
      modifies this
      ensures fresh(mid) && fresh(right) && mid != right
      ensures View() == Cut(old(View()), old(vpn), start)
      ensures mid.View() == Cut(old(View()), start, end)
      ensures right.View() == Cut(old(View()), end, old(View()).End())
    {
      var rightPages := pages[|pages| - (vpn + |pages| - end)..];
      pages := pages[..|pages| - (vpn + |pages| - end)];
      var midPages := pages[|pages| - (vpn + |pages| - start)..];
      pages := pages[..|pages| - (vpn + |pages| - start)];
      mid := new MapArea(Area(midPages, start, shared, flags, Shift(backend, start - vpn)));
      right := new MapArea(Area(rightPages, end, shared, flags, Shift(backend, end - vpn)));
      assert midPages == old(pages)[start - vpn..end - vpn];
      assert pages == old(pages)[..start - vpn];
    }

    /** Keeps [vpn, leftEnd), returns [rightStart, end), and drops what lies between. */
    method RemoveMid(leftEnd: nat, rightStart: nat, pt: PageTable) returns (right: MapArea)
      requires vpn <= leftEnd <= rightStart <= vpn + |pages|
      requires forall p | View().Covers(p) :: p in pt.entries
      modifies this, pt
      ensures fresh(right)
      ensures View() == Cut(old(View()), old(vpn), leftEnd)
      ensures right.View() == Cut(old(View()), rightStart, old(View()).End())
      ensures forall p :: p in pt.entries <==> p in old(pt.entries) && !(leftEnd <= p < rightStart)
      ensures forall p | p in pt.entries :: pt.entries[p] == old(pt.entries)[p]
    {
      assert forall p | InRange(p, leftEnd, rightStart - leftEnd) :: View().Covers(p);
      right := KeepOuter(leftEnd, rightStart);
      pt.UnmapRegion(leftEnd, rightStart - leftEnd);
    }

    method KeepOuter(leftEnd: nat, rightStart: nat) returns (right: MapArea)
      requires vpn <= leftEnd <= rightStart <= vpn + |pages|
      modifies this
      ensures fresh(right)
      ensures View() == Cut(old(View()), old(vpn), leftEnd)
      ensures right.View() == Cut(old(View()), rightStart, old(View()).End())
    {
      var rightPages := pages[rightStart - vpn..];
      pages := pages[..rightStart - vpn];
      right := new MapArea(Area(rightPages, rightStart, shared, flags, Shift(backend, rightStart - vpn)));
      pages := pages[..leftEnd - vpn] + pages[rightStart - vpn..];
      assert pages == old(pages)[..leftEnd - vpn];
    }

    method UpdateFlags(flags: Flags, pt: PageTable)
      requires forall p | View().Covers(p) :: p in pt.entries
      modifies this`flags, pt
      ensures View() == old(View()).(flags := flags)
      ensures pt.entries.Keys == old(pt.entries).Keys
      ensures forall p | p in pt.entries ::
        pt.entries[p] == if View().Covers(p) then WithFlags(old(pt.entries)[p], flags) else old(pt.entries)[p]
    {
      assert forall p :: InRange(p, vpn, |pages|) <==> View().Covers(p);
      this.flags := flags;
      pt.UpdateRegion(vpn, |pages|, flags);
    }

    /** Makes the page resident, unless it is or the access is not allowed.  Without a frame the code stops. */
    method HandlePageFault(p: nat, access: Flags, pt: PageTable, mem: PhysMem, files: Files) returns (r: Attempt<bool>)
      requires View().Covers(p) && mem.Valid()
      modifies this`pages, pt, mem
      ensures mem.Valid() && Extends(old(mem.content), mem.content) && |pages| == |old(pages)|
      ensures FaultAnswer(old(mem.refuse), mem.refuse, access <= flags, old(pages)[p - vpn].None?, r)
      ensures r != Got(true) ==> pages == old(pages) && pt.entries == old(pt.entries) && mem.content == old(mem.content)
      ensures r == Got(true) ==> FaultedIn(old(View()), View(), p, old(mem.content), mem.content, files)
      ensures r == Got(true) ==> pages[p - vpn].Some? && (old(pages)[p - vpn].Some? ==> pages == old(pages))
      ensures r == Got(true) && old(pages)[p - vpn].None? ==>
        && pages[p - vpn].value !in old(mem.content) && pages[p - vpn].value in mem.content
        && ShowsFile(mem.content[pages[p - vpn].value], files, backend, p - vpn)
        && pt.entries == old(pt.entries)[p := Mapped(pages[p - vpn].value, flags)]
      ensures old(Agrees(pt.entries, View())) ==> Agrees(pt.entries, View()) && SameOutside(old(pt.entries), pt.entries, View())
    {
      if !(access <= flags) {
        return Got(false);
      }
      var index := p - vpn;
      if pages[index].Some? {
        return Got(true);
      }
      var f := mem.Alloc(Filled(Shift(backend, index), files));
      if f.None? { return Stopped; }
      FilledShows(files, backend, index);
      pt.MapOverwrite(p, f.value, flags);
      pages := pages[index := f];
      assert FaultedIn(old(View()), View(), p, old(mem.content), mem.content, files);
      return Got(true);
    }

    /** First part of cloning a shared area: every lazy page is faulted in. */
    method FaultAll(pt: PageTable, mem: PhysMem, files: Files) returns (ok: bool)
      requires mem.Valid() && Agrees(pt.entries, View()) && Resident(pages, mem.content) && DistinctFrames(pages)
      modifies this`pages, pt, mem
      ensures Used(old(mem.refuse), mem.refuse) && (ok <==> Clean(old(mem.refuse), mem.refuse))
      ensures mem.Valid() && Resident(pages, mem.content) && DistinctFrames(pages)
      ensures Agrees(pt.entries, View()) && SameOutside(old(pt.entries), pt.entries, View())
      ensures ok ==> Loaded(old(pages), pages, backend, old(mem.content), mem.content, files, |pages|)
    {
      var n := |pages|;
      for i := 0 to n
        invariant mem.Valid() && |pages| == n && Resident(pages, mem.content) && DistinctFrames(pages)
        invariant Used(old(mem.refuse), mem.refuse) && Clean(old(mem.refuse), mem.refuse)
        invariant Loaded(old(pages), pages, backend, old(mem.content), mem.content, files, i)
        invariant Agrees(pt.entries, View()) && SameOutside(old(pt.entries), pt.entries, View())
      {
        ghost var refuse, before, m := mem.refuse, pages, mem.content;
        ok := FaultOne(i, pt, mem, files);
        CleanTwice(old(mem.refuse), refuse, mem.refuse);
        if !ok { return; }
        LoadedNext(old(pages), before, pages, backend, old(mem.content), m, mem.content, files, i);
      }
      ok := true;
    }

    method FaultOne(i: nat, pt: PageTable, mem: PhysMem, files: Files) returns (ok: bool)
      requires i < |pages| && mem.Valid()
      requires Agrees(pt.entries, View()) && Resident(pages, mem.content) && DistinctFrames(pages)
      modifies this`pages, pt, mem
      ensures Used(old(mem.refuse), mem.refuse) && (ok <==> Clean(old(mem.refuse), mem.refuse))
      ensures mem.Valid() && |pages| == |old(pages)| && Resident(pages, mem.content) && DistinctFrames(pages)
      ensures Agrees(pt.entries, View()) && SameOutside(old(pt.entries), pt.entries, View())
      ensures ok ==> LoadedOne(old(pages), pages, backend, old(mem.content), mem.content, files, i)
    {
      ghost var before := View();
      var r := HandlePageFault(vpn + i, {}, pt, mem, files);
      ok := r.Got?;
      if ok { FaultedSlots(before, View(), i, old(mem.content), mem.content, files); }
    }

    method MapAllResident(childPt: PageTable) returns (slots: seq<Option<Frame>>)
      requires forall i | 0 <= i < |pages| :: pages[i].Some?
      requires forall p | View().Covers(p) :: p !in childPt.entries
      modifies childPt
      ensures slots == pages && MapsSlots(old(childPt.entries), childPt.entries, vpn, pages, flags)
    {
      slots := [];
      for i := 0 to |pages|
        invariant slots == pages[..i]
        invariant MapsSlots(old(childPt.entries), childPt.entries, vpn, slots, flags)
      {
        assert View().Covers(vpn + i) && MapsAt(old(childPt.entries), childPt.entries, vpn, slots, flags, vpn + i);
        MapsOneMore(old(childPt.entries), childPt.entries, vpn, slots, flags, pages[i]);
        childPt.Map(vpn + i, pages[i].value, flags);
        slots := slots + [pages[i]];
      }
      assert slots == pages;
    }

    method CloneShared(childPt: PageTable, pt: PageTable, mem: PhysMem, files: Files) returns (ok: bool, child: MapArea)
      requires shared && childPt != pt && mem.Valid()
      requires Agrees(pt.entries, View()) && Resident(pages, mem.content) && DistinctFrames(pages)
      requires forall p | View().Covers(p) :: p !in childPt.entries
      modifies this`pages, childPt, pt, mem
      ensures Used(old(mem.refuse), mem.refuse) && (ok <==> Clean(old(mem.refuse), mem.refuse))
      ensures ok ==> fresh(child) && mem.Valid()
      ensures ok ==> Cloned(old(View()), View(), child.View(), old(mem.content), mem.content, files)
      ensures ok ==> Agrees(pt.entries, View()) && SameOutside(old(pt.entries), pt.entries, View())
      ensures ok ==> Agrees(childPt.entries, child.View()) && SameOutside(old(childPt.entries), childPt.entries, View())
    {
      child := this;
      ok := FaultAll(pt, mem, files);
      if !ok { return; }
      var slots := MapAllResident(childPt);
      MapsAll(old(childPt.entries), childPt.entries, View());
      child := new MapArea(Area(slots, vpn, shared, flags, backend));
    }

    /** The contents of a fully resident area. */
    method Contents(mem: PhysMem) returns (data: seq<Page>)
      requires Resident(pages, mem.content) && forall i | 0 <= i < |pages| :: pages[i].Some?
      ensures |data| == |pages| && forall i | 0 <= i < |pages| :: data[i] == mem.content[pages[i].value]
    {
      data := [];
      for i := 0 to |pages|
        invariant |data| == i && forall j | 0 <= j < i :: data[j] == mem.content[pages[j].value]
      {
        data := data + [mem.content[pages[i].value]];
      }
    }

    /** A fully resident private area is copied to one contiguous run of frames. */
    method CloneContiguous(childPt: PageTable, mem: PhysMem, ghost files: Files) returns (ok: bool, child: MapArea)
      requires !shared && mem.Valid() && forall i | 0 <= i < |pages| :: pages[i].Some?
      requires Resident(pages, mem.content) && DistinctFrames(pages)
      requires forall p | View().Covers(p) :: p !in childPt.entries
      modifies childPt, mem
      ensures Used(old(mem.refuse), mem.refuse) && (ok <==> Clean(old(mem.refuse), mem.refuse))
      ensures mem.Valid() && (!ok ==> mem.content == old(mem.content) && childPt.entries == old(childPt.entries))
      ensures ok ==> fresh(child) && Cloned(View(), View(), child.View(), old(mem.content), mem.content, files)
      ensures ok ==> Agrees(childPt.entries, child.View()) && SameOutside(old(childPt.entries), childPt.entries, View())
    {
      var data := Contents(mem);
      assert forall p | InRange(p, vpn, |data|) :: View().Covers(p);
      var c := NewAlloc(vpn, flags, data, backend, childPt, mem);
      ok := c.Some?;
      if !ok { return false, this; }
      child := c.value;
      CopiedToRun(pages, data, child.View().pages, old(mem.content), mem.content);
      CopiedAll(View(), child.View(), old(mem.content), mem.content, files);
    }

    /** An area with a contiguous run of new frames that hold `data`. */
    static method NewAlloc(start: nat, flags: Flags, data: seq<Page>, backend: Option<Backend>, pt: PageTable, mem: PhysMem)
      returns (r: Option<MapArea>)
      requires mem.Valid() && forall p | InRange(p, start, |data|) :: p !in pt.entries
      modifies pt, mem
      ensures mem.Valid() && Used(old(mem.refuse), mem.refuse) && (r.Some? <==> Clean(old(mem.refuse), mem.refuse))
      ensures r.None? ==> mem.content == old(mem.content) && pt.entries == old(pt.entries)
      ensures r.Some? ==> fresh(r.value) && r.value.View() == Area(r.value.pages, start, false, flags, backend)
      ensures r.Some? ==> HoldsNew(r.value.pages, data, old(mem.content), mem.content)
      ensures r.Some? ==> Agrees(pt.entries, r.value.View()) && SameOutside(old(pt.entries), pt.entries, r.value.View())
    {
      var first := mem.AllocContiguous(data);
      if first.None? { return None; }
      pt.MapRegion(start, first.value, |data|, flags);
      var area := new MapArea(Area(Run(first.value, |data|), start, false, flags, backend));
      RunMapped(old(pt.entries), pt.entries, start, first.value, |data|, flags);
      MapsAll(old(pt.entries), pt.entries, area.View());
      r := Some(area);
    }

    /** The next slot of a copy: a new frame for a resident page, a lazy page for a lazy one. */
    method CloneSlot(slots: seq<Option<Frame>>, childPt: PageTable, mem: PhysMem, ghost m0: map<Frame, Page>, ghost e0: map<nat, Pte>)
      returns (ok: bool, slot: Option<Frame>)
      requires |slots| < |pages| && mem.Valid() && Copied(pages, slots, m0, mem.content) && Resident(pages, m0)
      requires MapsSlots(e0, childPt.entries, vpn, slots, flags) && forall p | View().Covers(p) :: p !in e0
      modifies childPt, mem
      ensures Used(old(mem.refuse), mem.refuse) && (ok <==> Clean(old(mem.refuse), mem.refuse))
      ensures ok ==> mem.Valid() && Copied(pages, slots + [slot], m0, mem.content)
      ensures ok ==> MapsSlots(e0, childPt.entries, vpn, slots + [slot], flags)
    {
      ghost var i := |slots|;
      assert View().Covers(vpn + i) && MapsAt(e0, childPt.entries, vpn, slots, flags, vpn + i);
      ok, slot := true, None;
      match pages[|slots|] {
        case Some(frame) =>
          slot := mem.Alloc(mem.content[frame]);
          if slot.None? { return false, None; }
          MapsOneMore(e0, childPt.entries, vpn, slots, flags, slot);
          childPt.Map(vpn + |slots|, slot.value, flags);
        case None =>
          MapsOneMore(e0, childPt.entries, vpn, slots, flags, slot);
          childPt.MapFault(vpn + |slots|, flags);
      }
      CopiedOneMore(pages, slots, m0, old(mem.content), mem.content, slot);
    }

    /** Copies every resident page to a new frame and leaves the lazy ones lazy. */
    method ClonePrivate(childPt: PageTable, mem: PhysMem, ghost files: Files) returns (ok: bool, child: MapArea)
      requires !shared && mem.Valid()
      requires Resident(pages, mem.content) && DistinctFrames(pages)
      requires forall p | View().Covers(p) :: p !in childPt.entries
      modifies childPt, mem
      ensures Used(old(mem.refuse), mem.refuse) && (ok <==> Clean(old(mem.refuse), mem.refuse))
      ensures ok ==> fresh(child) && mem.Valid()
      ensures ok ==> Cloned(View(), View(), child.View(), old(mem.content), mem.content, files)
      ensures ok ==> Agrees(childPt.entries, child.View()) && SameOutside(old(childPt.entries), childPt.entries, View())
    {
      ok, child := true, this;
      var slots: seq<Option<Frame>> := [];
      for i := 0 to |pages|
        invariant ok && |slots| == i && mem.Valid() && Copied(pages, slots, old(mem.content), mem.content)
        invariant MapsSlots(old(childPt.entries), childPt.entries, vpn, slots, flags)
        invariant Used(old(mem.refuse), mem.refuse) && Clean(old(mem.refuse), mem.refuse)
      {
        ghost var refuse := mem.refuse;
        var slot;
        ok, slot := CloneSlot(slots, childPt, mem, old(mem.content), old(childPt.entries));
        CleanTwice(old(mem.refuse), refuse, mem.refuse);
        if !ok { return; }
        slots := slots + [slot];
      }
      child := new MapArea(Area(slots, vpn, shared, flags, backend));
      MapsAll(old(childPt.entries), childPt.entries, child.View());
      CopiedAll(View(), child.View(), old(mem.content), mem.content, files);
    }

    /** Clones the area into the child's page table.  If an allocation fails, a fully resident private area
        reports it and nothing has changed; elsewhere the code stops. */
    method CloneAlloc(childPt: PageTable, pt: PageTable, mem: PhysMem, files: Files) returns (r: Attempt<MapArea>)
      requires childPt != pt && mem.Valid()
      requires Agrees(pt.entries, View()) && Resident(pages, mem.content) && DistinctFrames(pages)
      requires forall p | View().Covers(p) :: p !in childPt.entries
      modifies this`pages, childPt, pt, mem
      ensures Used(old(mem.refuse), mem.refuse) && (r.Got? <==> Clean(old(mem.refuse), mem.refuse))
      ensures !r.Got? ==> (r.NoMemory? <==> !shared && forall i | 0 <= i < |old(pages)| :: old(pages)[i].Some?)
      ensures r.NoMemory? ==> mem.Valid() && mem.content == old(mem.content) && View() == old(View())
      ensures r.NoMemory? ==> pt.entries == old(pt.entries) && childPt.entries == old(childPt.entries)
      ensures r.Got? ==> fresh(r.value) && mem.Valid()
      ensures r.Got? ==> Cloned(old(View()), View(), r.value.View(), old(mem.content), mem.content, files)
      ensures r.Got? ==> Agrees(pt.entries, View()) && SameOutside(old(pt.entries), pt.entries, View())
      ensures r.Got? ==>
        Agrees(childPt.entries, r.value.View()) && SameOutside(old(childPt.entries), childPt.entries, View())
    {
      if shared {
        var ok, child := CloneShared(childPt, pt, mem, files);
        r := if ok then Got(child) else Stopped;
      } else if forall i | 0 <= i < |pages| :: pages[i].Some? {
        var ok, child := CloneContiguous(childPt, mem, files);
        r := if ok then Got(child) else NoMemory;
      } else {
        var ok, child := ClonePrivate(childPt, mem, files);
        r := if ok then Got(child) else Stopped;
      }
    }
  }
}
