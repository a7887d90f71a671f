/**
 A parent and its child after a fork, calling and storing in any order: every such program is a run of the pair
 of processes that `Isolation` speaks of.
 */
module Processes {

  import opened Options
  import opened Tiling
  import opened MapAreas
  import opened AddressSpace
  import opened Fork
  import opened Isolation
  import opened MemorySets

  /** What a process does next: a call, or a store to a page. */
  datatype Act = Invoke(side: Side, call: Call) | Write(side: Side, page: nat, data: Page)

  /** An act of a process: a call changes its pages as the call says; a write is a store if the page is resident
      and nothing otherwise. */
  ghost predicate Acts(x: Proc, act: Act, step: Step, x1: Proc) {
    match act
    case Invoke(side, call) =>
      && step == (if call.CallFault? then Touch(side, call.page) else Remap(side))
      && exists answer :: Called(x, call, answer, x1)
    case Write(side, p, data) =>
      if Tiled(x.owned, x.home) && p in x.home && At(x, p).slot.Some? then step == Store(side, p, data)
      else step == Touch(side, p)
  }

  method Perform(x: MemorySet, act: Act, mem: PhysMem, files: Files) returns (stopped: bool, ghost step: Step)
    requires x.Valid() && mem.Valid() && ProcOk(x.Process(), mem.content)
    modifies x`owned, x`home, x.pt, mem
    ensures !stopped ==> x.Valid() && mem.Valid() && step.side == act.side && Acts(old(x.Process()), act, step, x.Process())
    ensures !stopped ==> Moves(old(x.Process()), old(mem.content), step, x.Process(), mem.content, files)
    ensures stopped ==> act.Invoke? && x.StoppedAt(old(x.Process()), act.call)
  {
    match act
    case Invoke(side, call) =>
      ghost var answer;
      stopped, answer, step := x.Perform(call, mem, files, side);
    case Write(side, p, data) =>
      var stored := x.Store(p, data, mem);
      stopped := false;
      step := if stored then Store(side, p, data) else Touch(side, p);
      if !stored { NothingChanged(x.owned, x.home, mem.content, files, p); }
  }

  /** The run of two processes so far. */
  ghost predicate RunsTo(states: seq<Pair>, steps: seq<Step>, acts: seq<Act>, files: Files, s: Pair) {
    && IsRun(states, steps, files) && |acts| == |steps| && states[|steps|] == s && PairOk(s)
    && forall i: nat | i < |acts| ::
         steps[i].side == acts[i].side && Acts(Mine(states[i], acts[i].side), acts[i], steps[i], Mine(states[i + 1], acts[i].side))
  }

  lemma RunsFurther(states: seq<Pair>, steps: seq<Step>, acts: seq<Act>, files: Files, s: Pair, act: Act, step: Step, s1: Pair)
    requires RunsTo(states, steps, acts, files, s) && Next(s, step, s1, files)
    requires step.side == act.side && Acts(Mine(s, act.side), act, step, Mine(s1, act.side))
    ensures RunsTo(states + [s1], steps + [step], acts + [act], files, s1)
  {
    RunMore(states, steps, files, step, s1);
    StepKeepsPair(s, step, s1, files);
  }

  /** In state `s` the act is a call at which the code can stop. */
  ghost predicate Refuses(a: MemorySet, b: MemorySet, s: Pair, act: Act)
    reads a, b
  {
    act.Invoke? && if act.side == First then a.StoppedAt(s.a, act.call) else b.StoppedAt(s.b, act.call)
  }

  /** One of two processes acts. */
  method Advance(a: MemorySet, b: MemorySet, act: Act, mem: PhysMem, files: Files) returns (stopped: bool, ghost step: Step)
    requires a != b && a.pt != b.pt && a.Valid() && b.Valid() && mem.Valid()
    requires PairOk(Pair(a.Process(), b.Process(), mem.content))
    modifies a`owned, a`home, a.pt, b`owned, b`home, b.pt, mem
    ensures !stopped ==> a.Valid() && b.Valid() && mem.Valid() && step.side == act.side
    ensures !stopped ==>
      Next(old(Pair(a.Process(), b.Process(), mem.content)), step, Pair(a.Process(), b.Process(), mem.content), files)
    ensures !stopped ==>
      Acts(Mine(old(Pair(a.Process(), b.Process(), mem.content)), act.side), act, step,
           Mine(Pair(a.Process(), b.Process(), mem.content), act.side))
    ensures stopped ==> Refuses(a, b, old(Pair(a.Process(), b.Process(), mem.content)), act)
  {
    if act.side == First {
      stopped, step := Perform(a, act, mem, files);
    } else {
      stopped, step := Perform(b, act, mem, files);
    }
  }

  /** Two separate processes stay separate whatever they do, in any order. */
  method Interleave(a: MemorySet, b: MemorySet, acts: seq<Act>, mem: PhysMem, files: Files)
    returns (done: nat, ghost states: seq<Pair>, ghost steps: seq<Step>)
    requires a != b && a.pt != b.pt && a.Valid() && b.Valid() && mem.Valid()
    requires PairOk(Pair(a.Process(), b.Process(), mem.content))
    modifies a`owned, a`home, a.pt, b`owned, b`home, b.pt, mem
    ensures done <= |acts| && |states| == done + 1 && RunsTo(states, steps, acts[..done], files, states[done])
    ensures states[0] == old(Pair(a.Process(), b.Process(), mem.content))
    ensures done < |acts| ==> Refuses(a, b, states[done], acts[done])
    ensures done == |acts| ==> a.Valid() && b.Valid() && mem.Valid()
    ensures done == |acts| ==> states[done] == Pair(a.Process(), b.Process(), mem.content)
  {
    done, states, steps := 0, [Pair(a.Process(), b.Process(), mem.content)], [];
    while done < |acts|
      invariant done <= |acts| && |states| == done + 1 && a.Valid() && b.Valid() && mem.Valid()
      invariant RunsTo(states, steps, acts[..done], files, Pair(a.Process(), b.Process(), mem.content))
      invariant states[0] == old(Pair(a.Process(), b.Process(), mem.content))
    {
      var act := acts[done];
      ghost var s := Pair(a.Process(), b.Process(), mem.content);
      var stopped;
      ghost var step;
      stopped, step := Advance(a, b, act, mem, files);
      if stopped { return; }
      RunsFurther(states, steps, acts[..done], files, s, act, step, Pair(a.Process(), b.Process(), mem.content));
      assert acts[..done + 1] == acts[..done] + [act];
      states, steps := states + [Pair(a.Process(), b.Process(), mem.content)], steps + [step];
      done := done + 1;
    }
  }

  /** Unless a step of the run says otherwise, `side` ends up seeing at `q` its own last store there, or `before`. */
  ghost predicate Isolated(states: seq<Pair>, steps: seq<Step>, files: Files, side: Side, q: nat, before: Page)
    requires |states| == |steps| + 1
  {
    (forall k: nat {:trigger MindsAt(states, steps, side, q, k)} | k < |steps| :: !MindsAt(states, steps, side, q, k)) ==>
      SeesLast(states, steps, files, side, q, before, 0, |steps|)
  }

  lemma RunIsolates(states: seq<Pair>, steps: seq<Step>, files: Files, side: Side, q: nat)
    requires IsRun(states, steps, files) && PairOk(states[0]) && q in Mine(states[0], side).home
    ensures Isolated(states, steps, files, side, q, Sees(Mine(states[0], side), states[0].m, files, q))
  {
    if forall k: nat {:trigger MindsAt(states, steps, side, q, k)} | k < |steps| :: !MindsAt(states, steps, side, q, k) {
      ForkIsolates(states, steps, files, side, 0, |steps|, q);
    }
  }

  /** Fork and then anything: the two processes go on with the parent's pages.  Each of them sees at every page its
      own last store there, or what the parent saw before the fork, unless it remaps the page or the other one
      stores to a shared page. */
  method ForkThenRun(parent: MemorySet, acts: seq<Act>, mem: PhysMem, files: Files)
    returns (r: Attempt<MemorySet>, done: nat, ghost states: seq<Pair>, ghost steps: seq<Step>)
    requires parent.Valid() && mem.Valid() && ProcOk(parent.Process(), mem.content)
    modifies parent`owned, parent`home, parent.pt, mem
    ensures r.Got? ==> done <= |acts| && |states| == done + 1 && RunsTo(states, steps, acts[..done], files, states[done])
    ensures r.Got? && done < |acts| ==> Refuses(parent, r.value, states[done], acts[done])
    ensures (forall i | 0 <= i < |old(mem.refuse)| :: !old(mem.refuse)[i]) ==> r.Got?
    ensures r.Got? ==> PairOk(states[0]) && states[0].a.home == states[0].b.home == old(parent.home)
    ensures r.Got? ==> forall side, p | p in old(parent.home) ::
      Isolated(states, steps, files, side, p, Sees(old(parent.Process()), old(mem.content), files, p))
  {
    ghost var o0, m0 := parent.owned, mem.content;
    done, states, steps := 0, [], [];
    r := parent.CloneOrErr(mem, files);
    if r.Got? {
      ForkSeparates(o0, parent.owned, r.value.owned, parent.home, m0, mem.content, files);
      ghost var first := Pair(parent.Process(), r.value.Process(), mem.content);
      SeenBefore(o0, first, m0, files);
      done, states, steps := Interleave(parent, r.value, acts, mem, files);
      RunIsolatesAll(states, steps, files, Proc(o0, old(parent.home)), m0);
    }
  }

  lemma RunIsolatesAll(states: seq<Pair>, steps: seq<Step>, files: Files, x: Proc, m: Memory)
    requires IsRun(states, steps, files) && PairOk(states[0]) && ProcOk(x, m) && states[0].a.home == states[0].b.home == x.home
    requires forall side, p | p in x.home :: Sees(Mine(states[0], side), states[0].m, files, p) == Sees(x, m, files, p)
    ensures forall side, p | p in x.home :: Isolated(states, steps, files, side, p, Sees(x, m, files, p))
  {
    forall side, p | p in x.home ensures Isolated(states, steps, files, side, p, Sees(x, m, files, p)) {
      RunIsolates(states, steps, files, side, p);
    }
  }

  /** Both processes begin with what the parent saw. */
  lemma SeenBefore(o0: Owned, s: Pair, m0: Memory, files: Files)
    requires s.a.home == s.b.home && Forked(o0, s.a.owned, s.b.owned, s.a.home, m0, s.m, files) && PairOk(s)
    ensures ProcOk(Proc(o0, s.a.home), m0)
    ensures forall side, p | p in s.a.home :: Sees(Mine(s, side), s.m, files, p) == Sees(Proc(o0, s.a.home), m0, files, p)
  {
    forall side, p | p in s.a.home ensures Sees(Mine(s, side), s.m, files, p) == Sees(Proc(o0, s.a.home), m0, files, p) {
      assert View(s.a.owned, s.a.home, p) == View(s.a.owned, s.a.home, p);
    }
  }
}
