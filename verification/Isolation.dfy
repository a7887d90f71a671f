/**
 Two processes after a fork.  Whatever they do later (touch pages, store to them, map, unmap and protect), a
 private frame of one is no frame of the other, so a step of one changes nothing the other can see, except by a
 store to a frame they share.
 */
module Isolation {

  import opened Options
  import opened Tiling
  import opened MapAreas
  import opened AddressSpace
  import opened Fork

  /** An address space. */
  datatype Proc = Proc(owned: Owned, home: Home)

  datatype Side = First | Second

  /** Two address spaces over one memory. */
  datatype Pair = Pair(a: Proc, b: Proc, m: Memory)

  function Mine(s: Pair, side: Side): Proc {
    if side == First then s.a else s.b
  }

  function Other(s: Pair, side: Side): Proc {
    if side == First then s.b else s.a
  }

  ghost function At(x: Proc, p: nat): PageView
    requires Tiled(x.owned, x.home) && p in x.home
  {
    View(x.owned, x.home, p)
  }

  ghost predicate ProcOk(x: Proc, m: Memory) {
    Tiled(x.owned, x.home) && FramesOk(x.owned, x.home, m)
  }

  /** Page `p` of `x`, if private, is not in the frame of page `q` of `y`. */
  ghost predicate SeparateAt(x: Proc, y: Proc, p: nat, q: nat)
    requires Tiled(x.owned, x.home) && Tiled(y.owned, y.home) && p in x.home && q in y.home
  {
    !At(x, p).shared && At(x, p).slot.Some? ==> At(x, p).slot != At(y, q).slot
  }

  ghost predicate Separate(x: Proc, y: Proc)
    requires Tiled(x.owned, x.home) && Tiled(y.owned, y.home)
  {
    forall p, q {:trigger SeparateAt(x, y, p, q)} :: p in x.home && q in y.home ==> SeparateAt(x, y, p, q)
  }

  ghost predicate PairOk(s: Pair) {
    ProcOk(s.a, s.m) && ProcOk(s.b, s.m) && Separate(s.a, s.b) && Separate(s.b, s.a)
  }

  /** What a process sees at page `p`. */
  ghost function Sees(x: Proc, m: Memory, files: Files, p: nat): Page
    requires ProcOk(x, m) && p in x.home
  {
    assert FrameIn(x.owned, x.home, m, p);
    Denote(At(x, p), m, files)
  }

  // ---------------------------------------------------------------- steps

  /** A fault, a store to a resident page, or a change of mappings. */
  datatype Step = Touch(side: Side, page: nat) | Store(side: Side, page: nat, data: Page) | Remap(side: Side)

  /** Mapping, unmapping and protecting give no page a frame it did not have. */
  ghost predicate Remapped(x: Proc, x1: Proc) {
    && Tiled(x.owned, x.home) && Tiled(x1.owned, x1.home)
    && forall p | p in x1.home && At(x1, p).slot.Some? ::
         p in x.home && At(x, p).slot == At(x1, p).slot && At(x, p).shared == At(x1, p).shared
  }

  lemma UnmapIsRemap(x: Proc, x1: Proc, start: nat, size: nat)
    requires Tiled(x.owned, x.home) && Tiled(x1.owned, x1.home)
    requires Pages(x1.owned, x1.home) == WithoutBytes(Pages(x.owned, x.home), start, size)
    ensures Remapped(x, x1)
  {
    forall p | p in x1.home ensures p in x.home && At(x1, p) == At(x, p) { assert p in Pages(x1.owned, x1.home); }
  }

  lemma ProtectIsRemap(x: Proc, x1: Proc, start: nat, end: nat, flags: Flags)
    requires Tiled(x.owned, x.home) && Tiled(x1.owned, x1.home)
    requires Pages(x1.owned, x1.home) == WithFlagsIn(Pages(x.owned, x.home), start, end, flags)
    ensures Remapped(x, x1)
  {
    forall p | p in x1.home ensures p in x.home && At(x1, p) == At(x, p).(flags := At(x1, p).flags) {
      assert p in Pages(x1.owned, x1.home);
    }
  }

  lemma MapIsRemap(x: Proc, x1: Proc, start: nat, n: nat, shared: bool, flags: Flags, backend: Option<Backend>)
    requires Tiled(x.owned, x.home) && Tiled(x1.owned, x1.home)
    requires Pages(x1.owned, x1.home) == Pages(x.owned, x.home) + Content(LazyArea(start, n, shared, flags, backend))
    ensures Remapped(x, x1)
  {
    forall p | p in x1.home && At(x1, p).slot.Some? ensures p in x.home && At(x1, p) == At(x, p) {
      assert p in Pages(x1.owned, x1.home);
    }
  }

  ghost predicate Stores(x: Proc, p: nat, data: Page, m: Memory, m1: Memory) {
    Tiled(x.owned, x.home) && p in x.home && At(x, p).slot.Some? && m1 == m[At(x, p).slot.value := data]
  }

  /** What a step does to the process that takes it and to memory. */
  ghost predicate Moves(x: Proc, m: Memory, step: Step, x1: Proc, m1: Memory, files: Files) {
    match step
    case Touch(_, p) => x1.home == x.home && Faulted(x.owned, x1.owned, x.home, m, m1, files, p)
    case Store(_, p, data) => x1 == x && Stores(x, p, data, m, m1)
    case Remap(_) => m1 == m && Remapped(x, x1)
  }

  ghost predicate Next(s: Pair, step: Step, s1: Pair, files: Files) {
    && Other(s1, step.side) == Other(s, step.side)
    && Moves(Mine(s, step.side), s.m, step, Mine(s1, step.side), s1.m, files)
  }

  /** A store that the other process may see. */
  ghost predicate SharedStore(s: Pair, step: Step) {
    step.Store? && var x := Mine(s, step.side);
    Tiled(x.owned, x.home) && step.page in x.home && At(x, step.page).shared
  }

  // ---------------------------------------------------------------- the invariant

  /** A fork makes two separate processes that see the same. */
  lemma ForkSeparates(o0: Owned, o1: Owned, oc: Owned, home: Home, m0: Memory, m: Memory, files: Files)
    requires Forked(o0, o1, oc, home, m0, m, files)
    ensures PairOk(Pair(Proc(o1, home), Proc(oc, home), m))
    ensures forall p | p in home :: Sees(Proc(o1, home), m, files, p) == Sees(Proc(oc, home), m, files, p)
  {
    var x, y := Proc(o1, home), Proc(oc, home);
    forall p, q | p in home && q in home ensures SeparateAt(y, x, p, q) {
      assert View(oc, home, p).slot == View(oc, home, p).slot && View(o1, home, q) == View(o1, home, q);
    }
    forall p, q | p in home && q in home ensures SeparateAt(x, y, p, q) {
      assert SeparateAt(y, x, q, p);
      assert View(o1, home, q).shared == View(o0, home, q).shared == View(oc, home, q).shared;
      assert p != q ==> FramesApart(o1, home, p, q);
    }
  }

  lemma MoreMemory(x: Proc, m: Memory, m1: Memory)
    requires ProcOk(x, m) && m.Keys <= m1.Keys
    ensures ProcOk(x, m1)
  {
    forall p | p in x.home ensures FrameIn(x.owned, x.home, m1, p) { assert FrameIn(x.owned, x.home, m, p); }
  }

  /** The step of one process, seen from another that is separate from it. */
  lemma TouchSeparates(x: Proc, x1: Proc, y: Proc, m: Memory, m1: Memory, files: Files, p: nat)
    requires ProcOk(x, m) && ProcOk(y, m) && Separate(x, y) && Separate(y, x)
    requires x1.home == x.home && Faulted(x.owned, x1.owned, x.home, m, m1, files, p)
    ensures ProcOk(x1, m1) && ProcOk(y, m1) && Separate(x1, y) && Separate(y, x1)
    ensures forall q | q in y.home :: Sees(y, m1, files, q) == Sees(y, m, files, q)
  {
    MoreMemory(y, m, m1);
    forall r, q | r in x1.home && q in y.home ensures SeparateAt(x1, y, r, q) && SeparateAt(y, x1, q, r) {
      assert SeparateAt(x, y, r, q) && SeparateAt(y, x, q, r) && FrameIn(y.owned, y.home, m, q);
    }
    forall q | q in y.home ensures Sees(y, m1, files, q) == Sees(y, m, files, q) { assert FrameIn(y.owned, y.home, m, q); }
  }

  lemma RemapSeparates(x: Proc, x1: Proc, y: Proc, m: Memory)
    requires ProcOk(x, m) && Tiled(y.owned, y.home) && Separate(x, y) && Separate(y, x) && Remapped(x, x1)
    ensures ProcOk(x1, m) && Separate(x1, y) && Separate(y, x1)
  {
    forall p | p in x1.home ensures FrameIn(x1.owned, x1.home, m, p) {
      assert At(x1, p).slot.Some? ==> FrameIn(x.owned, x.home, m, p);
    }
    forall p, q | p in x1.home && q in x1.home && p != q ensures FramesApart(x1.owned, x1.home, p, q) {
      assert At(x1, p) == At(x1, p) && At(x1, q) == At(x1, q);
      assert p in x.home && q in x.home ==> FramesApart(x.owned, x.home, p, q);
    }
    forall p, q | p in x1.home && q in y.home ensures SeparateAt(x1, y, p, q) && SeparateAt(y, x1, q, p) {
      assert p in x.home ==> SeparateAt(x, y, p, q) && SeparateAt(y, x, q, p);
    }
  }

  /** What a store does to what a process sees: the pages in that frame show the data, no other page changes. */
  lemma StoreSeen(x: Proc, y: Proc, m: Memory, m1: Memory, files: Files, p: nat, data: Page, q: nat)
    requires ProcOk(x, m) && ProcOk(y, m) && Stores(x, p, data, m, m1) && q in y.home
    ensures ProcOk(y, m1)
    ensures Sees(y, m1, files, q) == if At(y, q).slot == At(x, p).slot then data else Sees(y, m, files, q)
  {
    assert FrameIn(x.owned, x.home, m, p) && FrameIn(y.owned, y.home, m, q);
    MoreMemory(y, m, m1);
  }

  /** Every step keeps the two processes separate. */
  lemma StepKeepsPair(s: Pair, step: Step, s1: Pair, files: Files)
    requires PairOk(s) && Next(s, step, s1, files)
    ensures PairOk(s1)
  {
    var x, x1, y := Mine(s, step.side), Mine(s1, step.side), Other(s, step.side);
    match step
    case Touch(_, p) => TouchSeparates(x, x1, y, s.m, s1.m, files, p);
    case Store(_, p, data) =>
      assert FrameIn(x.owned, x.home, s.m, p);
      MoreMemory(x, s.m, s1.m);
      MoreMemory(y, s.m, s1.m);
    case Remap(_) => RemapSeparates(x, x1, y, s.m);
  }

  /** A step of one process that is not a store to a shared page changes nothing the other sees. */
  lemma StepInvisible(s: Pair, step: Step, s1: Pair, files: Files, q: nat)
    requires PairOk(s) && PairOk(s1) && Next(s, step, s1, files) && !SharedStore(s, step) && q in Other(s, step.side).home
    ensures Sees(Other(s1, step.side), s1.m, files, q) == Sees(Other(s, step.side), s.m, files, q)
  {
    var x, x1, y := Mine(s, step.side), Mine(s1, step.side), Other(s, step.side);
    match step
    case Touch(_, p) => TouchSeparates(x, x1, y, s.m, s1.m, files, p);
    case Store(_, p, data) =>
      StoreSeen(x, y, s.m, s1.m, files, p, data, q);
      assert SeparateAt(x, y, p, q);
    case Remap(_) =>
  }

  // ---------------------------------------------------------------- runs

  ghost predicate IsRun(states: seq<Pair>, steps: seq<Step>, files: Files) {
    |states| == |steps| + 1 && forall i | 0 <= i < |steps| :: Next(states[i], steps[i], states[i + 1], files)
  }

  lemma {:induction false} RunKeepsPair(states: seq<Pair>, steps: seq<Step>, files: Files, i: nat)
    requires IsRun(states, steps, files) && PairOk(states[0]) && i < |states|
    ensures PairOk(states[i])
  {
    if i > 0 {
      RunKeepsPair(states, steps, files, i - 1);
      StepKeepsPair(states[i - 1], steps[i - 1], states[i], files);
    }
  }

  lemma RunMore(states: seq<Pair>, steps: seq<Step>, files: Files, step: Step, s: Pair)
    requires IsRun(states, steps, files) && Next(states[|steps|], step, s, files)
    ensures IsRun(states + [s], steps + [step], files)
  {
  }

  /** The step from `s` to `s1` may change what `side` sees at page `q` in another way than by its own store: a store
      of the other process to a shared page, or a change of mappings by `side` that gives `q` another frame or source. */
  ghost predicate Minds(s: Pair, step: Step, s1: Pair, side: Side, q: nat) {
    if step.side != side then SharedStore(s, step)
    else
      var (x, x1) := (Mine(s, side), Mine(s1, side));
      step.Remap? && !(
        && Tiled(x.owned, x.home) && Tiled(x1.owned, x1.home) && q in x.home && q in x1.home
        && At(x1, q).slot == At(x, q).slot && At(x1, q).source == At(x, q).source)
  }

  /** What `side` last stored to `q`, if it did. */
  ghost function LastStore(steps: seq<Step>, side: Side, q: nat, before: Page): Page
    decreases |steps|
  {
    if steps == [] then before
    else
      var last := steps[|steps| - 1];
      if last.Store? && last.side == side && last.page == q then last.data
      else LastStore(steps[..|steps| - 1], side, q, before)
  }

  /** A process's own step, seen by itself. */
  lemma OwnStepSeen(x: Proc, m: Memory, step: Step, x1: Proc, m1: Memory, files: Files, q: nat)
    requires ProcOk(x, m) && ProcOk(x1, m1) && Moves(x, m, step, x1, m1, files) && !step.Remap? && q in x.home
    ensures q in x1.home
    ensures Sees(x1, m1, files, q) == if step.Store? && step.page == q then step.data else Sees(x, m, files, q)
  {
    match step
    case Touch(_, p) =>
      assert FrameIn(x.owned, x.home, m, q);
    case Store(_, p, data) =>
      StoreSeen(x, x, m, m1, files, p, data, q);
      if p != q { assert FramesApart(x.owned, x.home, p, q); }
  }

  lemma StepSeen(s: Pair, step: Step, s1: Pair, files: Files, side: Side, q: nat)
    requires PairOk(s) && PairOk(s1) && Next(s, step, s1, files) && !Minds(s, step, s1, side, q) && q in Mine(s, side).home
    ensures q in Mine(s1, side).home
    ensures Sees(Mine(s1, side), s1.m, files, q) ==
      if step.Store? && step.side == side && step.page == q then step.data else Sees(Mine(s, side), s.m, files, q)
  {
    if step.side != side {
      assert Mine(s, side) == Other(s, step.side) && Mine(s1, side) == Other(s1, step.side);
      StepInvisible(s, step, s1, files, q);
    } else if !step.Remap? {
      OwnStepSeen(Mine(s, side), s.m, step, Mine(s1, side), s1.m, files, q);
    }
  }

  /** Step `k` of a run does. */
  ghost predicate MindsAt(states: seq<Pair>, steps: seq<Step>, side: Side, q: nat, k: nat)
    requires |states| == |steps| + 1 && k < |steps|
  {
    Minds(states[k], steps[k], states[k + 1], side, q)
  }

  /** In state `j` of a run, `side` sees at `q` what it stored there last since state `i`, or else `before`. */
  ghost predicate SeesLast(states: seq<Pair>, steps: seq<Step>, files: Files, side: Side, q: nat, before: Page, i: nat, j: nat)
    requires |states| == |steps| + 1 && i <= j <= |steps|
  {
    && PairOk(states[j]) && q in Mine(states[j], side).home
    && Sees(Mine(states[j], side), states[j].m, files, q) == LastStore(steps[i..j], side, q, before)
  }

  lemma SeesLastNext(states: seq<Pair>, steps: seq<Step>, files: Files, side: Side, q: nat, before: Page, i: nat, j: nat)
    requires IsRun(states, steps, files) && i < j <= |steps| && SeesLast(states, steps, files, side, q, before, i, j - 1)
    requires !MindsAt(states, steps, side, q, j - 1)
    ensures SeesLast(states, steps, files, side, q, before, i, j)
  {
    assert steps[i..j][..j - 1 - i] == steps[i..j - 1];
    assert Next(states[j - 1], steps[j - 1], states[j - 1 + 1], files);
    StepKeepsPair(states[j - 1], steps[j - 1], states[j], files);
    StepSeen(states[j - 1], steps[j - 1], states[j], files, side, q);
  }

  lemma {:induction false} SeesLastLater(states: seq<Pair>, steps: seq<Step>, files: Files, side: Side, q: nat, before: Page,
                                         i: nat, j: nat)
    requires IsRun(states, steps, files) && i <= j <= |steps| && SeesLast(states, steps, files, side, q, before, i, i)
    requires forall k: nat {:trigger MindsAt(states, steps, side, q, k)} | i <= k < j :: !MindsAt(states, steps, side, q, k)
    ensures SeesLast(states, steps, files, side, q, before, i, j)
    decreases j
  {
    if i < j {
      SeesLastLater(states, steps, files, side, q, before, i, j - 1);
      SeesLastNext(states, steps, files, side, q, before, i, j);
    }
  }

  /** However the steps of the two processes interleave: as long as the other stores to no shared page and `side`
      does not remap `q`, it sees at `q` what it stored there last, or what it saw before. */
  lemma ForkIsolates(states: seq<Pair>, steps: seq<Step>, files: Files, side: Side, i: nat, j: nat, q: nat)
    requires IsRun(states, steps, files) && i <= j <= |steps| && PairOk(states[i]) && q in Mine(states[i], side).home
    requires forall k: nat {:trigger MindsAt(states, steps, side, q, k)} | i <= k < j :: !MindsAt(states, steps, side, q, k)
    ensures SeesLast(states, steps, files, side, q, Sees(Mine(states[i], side), states[i].m, files, q), i, j)
  {
    assert steps[i..i] == [];
    SeesLastLater(states, steps, files, side, q, Sees(Mine(states[i], side), states[i].m, files, q), i, j);
  }
}
