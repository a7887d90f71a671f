/**
 The round-robin scheduler: a ready queue and a time slice per task.  One step is a timer tick in the
 running system: pick the front task, tick it, put it back.
 */
module RoundRobin {

  import opened Options

  type TaskId = nat

  /** `full` is the time slice every task starts from. */
  datatype Sched = Sched(full: nat, slices: map<TaskId, int>, queue: seq<TaskId>)

  ghost predicate Distinct(queue: seq<TaskId>) {
    forall i, j | 0 <= i < j < |queue| :: queue[i] != queue[j]
  }

  ghost predicate Ok(s: Sched) {
    Distinct(s.queue) && forall t | t in s.queue :: t in s.slices
  }

  // ---------------------------------------------------------------- operations

  function Add(s: Sched, t: TaskId): Sched {
    s.(queue := s.queue + [t])
  }

  function Pick(s: Sched): (Sched, Option<TaskId>) {
    if s.queue == [] then (s, None) else (s.(queue := s.queue[1..]), Some(s.queue[0]))
  }

  function Put(s: Sched, t: TaskId, preempt: bool): Sched
    requires t in s.slices
  {
    if s.slices[t] > 0 && preempt then s.(queue := [t] + s.queue)
    else s.(slices := s.slices[t := s.full], queue := s.queue + [t])
  }

  function Tick(s: Sched, t: TaskId): (r: (Sched, bool))
    requires t in s.slices
  {
    (s.(slices := s.slices[t := s.slices[t] - 1]), s.slices[t] <= 1)
  }

  ghost predicate IsFirst(queue: seq<TaskId>, t: TaskId, i: int) {
    0 <= i < |queue| && queue[i] == t && t !in queue[..i]
  }

  /** `k` ticks in a row, and what the last one said. */
  ghost function TickedFor(s: Sched, t: TaskId, k: nat): (r: (Sched, bool))
    requires t in s.slices && k > 0
    ensures t in r.0.slices
  {
    if k == 1 then Tick(s, t) else Tick(TickedFor(s, t, k - 1).0, t)
  }

  lemma {:induction false} TicksCount(s: Sched, t: TaskId, k: nat)
    requires t in s.slices && k > 0
    ensures TickedFor(s, t, k).0 == s.(slices := s.slices[t := s.slices[t] - k])
    ensures TickedFor(s, t, k).1 <==> s.slices[t] <= k
  {
    if k > 1 { TicksCount(s, t, k - 1); }
  }

  /** A tick says "used up" from the last tick of the slice on.  A task that is preempted then goes to the end with a
      full slice; one that is preempted earlier goes to the front with the rest of its slice. */
  lemma FlagEndsTurn(s: Sched, t: TaskId, k: nat)
    requires t in s.slices && k > 0
    ensures var (s1, expired) := TickedFor(s, t, k);
      && (expired <==> k >= s.slices[t])
      && (expired ==> Put(s1, t, true) == Sched(s.full, s.slices[t := s.full], s.queue + [t]))
      && (!expired ==> Put(s1, t, true) == Sched(s.full, s.slices[t := s.slices[t] - k], [t] + s.queue))
      && Put(s1, t, false) == Sched(s.full, s.slices[t := s.full], s.queue + [t])
  {
    TicksCount(s, t, k);
    assert s.slices[t := s.slices[t] - k][t := s.full] == s.slices[t := s.full];
  }

  // ---------------------------------------------------------------- steps

  ghost function Step(s: Sched, preempt: bool): (r: Sched)
    requires Ok(s) && s.queue != []
    ensures Ok(r) && |r.queue| == |s.queue| && r.full == s.full
  {
    var (s1, t) := Pick(s);
    var (s2, _) := Tick(s1, t.value);
    Put(s2, t.value, preempt)
  }

  /** One step per flag; a flag says whether the task was preempted or gave up the processor. */
  ghost function Steps(s: Sched, flags: seq<bool>): (r: Sched)
    requires Ok(s) && s.queue != []
    ensures Ok(r) && |r.queue| == |s.queue| && r.full == s.full
    decreases |flags|
  {
    if flags == [] then s else Steps(Step(s, flags[0]), flags[1..])
  }

  /** Who runs, step by step. */
  ghost function Trace(s: Sched, flags: seq<bool>): (r: seq<TaskId>)
    requires Ok(s) && s.queue != []
    ensures |r| == |flags|
    decreases |flags|
  {
    if flags == [] then [] else [s.queue[0]] + Trace(Step(s, flags[0]), flags[1..])
  }

  /** How many ticks a task runs before it goes to the back. */
  function Turn(slice: int): (n: nat)
    ensures n > 0
  {
    if slice > 0 then slice else 1
  }

  /** The ticks of the tasks ahead of index `i`. */
  ghost function Wait(s: Sched, i: nat): nat
    requires Ok(s) && i <= |s.queue|
  {
    if i == 0 then 0 else Wait(s, i - 1) + Turn(s.slices[s.queue[i - 1]])
  }

  function Repeat<T>(x: T, n: nat): (r: seq<T>)
    ensures |r| == n && forall i | 0 <= i < n :: r[i] == x
  {
    seq(n, _ => x)
  }

  /** The run in which the first `i` tasks of the queue use up their slices in order. */
  ghost function Turns(s: Sched, i: nat): (r: seq<TaskId>)
    requires Ok(s) && i <= |s.queue|
    ensures |r| == Wait(s, i)
  {
    if i == 0 then [] else Turns(s, i - 1) + Repeat(s.queue[i - 1], Turn(s.slices[s.queue[i - 1]]))
  }

  lemma {:induction false} StepsConcat(s: Sched, a: seq<bool>, b: seq<bool>)
    requires Ok(s) && s.queue != []
    ensures Steps(s, a + b) == Steps(Steps(s, a), b)
    ensures Trace(s, a + b) == Trace(s, a) + Trace(Steps(s, a), b)
    decreases |a|
  {
    if a == [] {
      assert a + b == b;
    } else {
      assert (a + b)[1..] == a[1..] + b;
      StepsConcat(Step(s, a[0]), a[1..], b);
    }
  }

  /** The queue after one whole turn of its front task. */
  ghost function Rotated(s: Sched): Sched
    requires Ok(s) && s.queue != []
  {
    s.(slices := s.slices[s.queue[0] := s.full], queue := s.queue[1..] + [s.queue[0]])
  }

  lemma StepInside(s: Sched)
    requires Ok(s) && s.queue != []
    ensures s.slices[s.queue[0]] > 1 ==>
      Step(s, true) == s.(slices := s.slices[s.queue[0] := s.slices[s.queue[0]] - 1])
    ensures s.slices[s.queue[0]] <= 1 ==> Step(s, true) == Rotated(s)
  {
    var t := s.queue[0];
    assert [t] + s.queue[1..] == s.queue;
    assert s.slices[t := s.slices[t] - 1][t := s.full] == s.slices[t := s.full];
  }

  lemma {:induction false} WholeTurn(s: Sched)
    requires Ok(s) && s.queue != []
    ensures var n := Turn(s.slices[s.queue[0]]);
      Steps(s, Repeat(true, n)) == Rotated(s) && Trace(s, Repeat(true, n)) == Repeat(s.queue[0], n)
    decreases Turn(s.slices[s.queue[0]])
  {
    var n := Turn(s.slices[s.queue[0]]);
    StepInside(s);
    assert Repeat(true, n)[1..] == Repeat(true, n - 1);
    if n > 1 {
      WholeTurn(Step(s, true));
      assert Rotated(Step(s, true)) == Rotated(s);
    } else {
      assert Repeat(true, 0) == [];
      assert Steps(s, Repeat(true, n)) == Steps(Step(s, true), []);
    }
  }

  /** The state after the first `i` tasks had their turns: they are at the back with full slices. */
  ghost predicate TurnsDone(s: Sched, s1: Sched, i: nat)
    requires i <= |s.queue|
  {
    && s1.full == s.full && s1.queue == s.queue[i..] + s.queue[..i] && s1.slices.Keys == s.slices.Keys
    && (forall t | t in s.slices :: s1.slices[t] == if t in s.queue[..i] then s.full else s.slices[t])
  }

  lemma OneMoreTurn(s: Sched, s1: Sched, i: nat)
    requires Ok(s) && Ok(s1) && i < |s.queue| && TurnsDone(s, s1, i)
    ensures s1.queue != [] && s1.queue[0] == s.queue[i] && s1.slices[s.queue[i]] == s.slices[s.queue[i]]
    ensures TurnsDone(s, Rotated(s1), i + 1)
  {
    var t := s.queue[i];
    assert s1.queue[0] == t;
    assert t !in s.queue[..i];
    assert s.queue[..i + 1] == s.queue[..i] + [t];
    assert Rotated(s1).queue == s.queue[i + 1..] + s.queue[..i + 1];
  }

  lemma TurnsStep(s: Sched, before: seq<bool>, flags: seq<bool>, i: nat)
    requires Ok(s) && s.queue != [] && i < |s.queue| && TurnsDone(s, Steps(s, before), i)
    requires flags == before + Repeat(true, Turn(s.slices[s.queue[i]]))
    ensures TurnsDone(s, Steps(s, flags), i + 1)
    ensures Trace(s, flags) == Trace(s, before) + Repeat(s.queue[i], Turn(s.slices[s.queue[i]]))
  {
    var s1 := Steps(s, before);
    OneMoreTurn(s, s1, i);
    WholeTurn(s1);
    StepsConcat(s, before, Repeat(true, Turn(s.slices[s.queue[i]])));
  }

  lemma NoTurnsYet(s: Sched)
    ensures TurnsDone(s, s, 0)
  {
    assert s.queue[0..] + s.queue[..0] == s.queue;
  }

  lemma RepeatSum<T>(x: T, m: nat, n: nat)
    ensures Repeat(x, m + n) == Repeat(x, m) + Repeat(x, n)
  {
  }

  /** With no early yields, tasks run in queue order, each for its whole slice. */
  lemma {:induction false} TurnsInOrder(s: Sched, i: nat, flags: seq<bool>)
    requires Ok(s) && s.queue != [] && i <= |s.queue| && flags == Repeat(true, Wait(s, i))
    ensures TurnsDone(s, Steps(s, flags), i)
    ensures Trace(s, flags) == Turns(s, i)
  {
    if i == 0 {
      NoTurnsYet(s);
    } else {
      var before := Repeat(true, Wait(s, i - 1));
      TurnsInOrder(s, i - 1, before);
      RepeatSum(true, Wait(s, i - 1), Turn(s.slices[s.queue[i - 1]]));
      TurnsStep(s, before, flags, i - 1);
    }
  }

  /** How many steps of a trace a task ran. */
  ghost function Ticks(trace: seq<TaskId>, t: TaskId): nat {
    if trace == [] then 0 else Ticks(trace[..|trace| - 1], t) + if trace[|trace| - 1] == t then 1 else 0
  }

  lemma {:induction false} TicksOfRepeat(trace: seq<TaskId>, u: TaskId, n: nat, t: TaskId)
    ensures Ticks(trace + Repeat(u, n), t) == Ticks(trace, t) + if t == u then n else 0
  {
    if n == 0 {
      assert trace + Repeat(u, 0) == trace;
    } else {
      TicksOfRepeat(trace, u, n - 1, t);
      var r := trace + Repeat(u, n);
      assert r[..|r| - 1] == trace + Repeat(u, n - 1);
    }
  }

  lemma {:induction false} TicksInTurns(s: Sched, i: nat, t: TaskId)
    requires Ok(s) && i <= |s.queue|
    ensures Ticks(Turns(s, i), t) == if t in s.queue[..i] then Turn(s.slices[t]) else 0
  {
    if i > 0 {
      TicksInTurns(s, i - 1, t);
      var u := s.queue[i - 1];
      TicksOfRepeat(Turns(s, i - 1), u, Turn(s.slices[u]), t);
      assert s.queue[..i] == s.queue[..i - 1] + [u];
      assert u !in s.queue[..i - 1];
    }
  }

  lemma {:induction false} FreshWait(s: Sched, i: nat)
    requires Ok(s) && i <= |s.queue| && forall t | t in s.queue :: s.slices[t] == s.full
    ensures Wait(s, i) == i * Turn(s.full)
  {
    if i > 0 { FreshWait(s, i - 1); }
  }

  lemma AllTurnsRestore(s: Sched, s1: Sched)
    requires Ok(s) && TurnsDone(s, s1, |s.queue|) && forall t | t in s.queue :: s.slices[t] == s.full
    ensures s1 == s
  {
    assert s.queue[|s.queue|..] + s.queue[..|s.queue|] == s.queue;
    assert s1.slices == s.slices;
  }

  /** From full slices, n * S steps give every one of the n tasks exactly S ticks and restore the whole state. */
  lemma FullCycle(s: Sched, t: TaskId)
    requires Ok(s) && s.queue != [] && s.full >= 1 && forall t | t in s.queue :: s.slices[t] == s.full
    ensures Steps(s, Repeat(true, |s.queue| * s.full)) == s
    ensures Ticks(Trace(s, Repeat(true, |s.queue| * s.full)), t) == if t in s.queue then s.full else 0
  {
    FreshWait(s, |s.queue|);
    TurnsInOrder(s, |s.queue|, Repeat(true, |s.queue| * s.full));
    AllTurnsRestore(s, Steps(s, Repeat(true, |s.queue| * s.full)));
    TicksInTurns(s, |s.queue|, t);
    assert s.queue[..|s.queue|] == s.queue;
  }

  lemma {:induction false} WaitBound(s: Sched, i: nat)
    requires Ok(s) && i <= |s.queue| && s.full >= 1 && forall t | t in s.queue :: s.slices[t] <= s.full
    ensures Wait(s, i) <= i * s.full
  {
    if i > 0 {
      WaitBound(s, i - 1);
      assert s.queue[i - 1] in s.queue && (i - 1) * s.full + s.full == i * s.full;
    }
  }

  /** Tasks keep their waits when one of them runs: it either used a tick of its slice or left the front. */
  lemma {:induction false} WaitShrinks(s: Sched, preempt: bool, i: nat)
    requires Ok(s) && 0 < i <= |s.queue|
    ensures var s1 := Step(s, preempt);
      if s1.queue == s.queue && s.slices[s.queue[0]] > 1 && preempt then Wait(s1, i) == Wait(s, i) - 1
      else Wait(s1, i - 1) <= Wait(s, i) - 1
  {
    var s1, t := Step(s, preempt), s.queue[0];
    if s.slices[t] > 1 && preempt { assert [t] + s.queue[1..] == s.queue; }
    if i > 1 {
      WaitShrinks(s, preempt, i - 1);
      assert s.queue[i - 1] != t;
      assert s1.queue == s.queue || s1.queue[i - 2] == s.queue[i - 1];
    }
  }

  /** One step later the task at index `i` has less to wait. */
  lemma MovesUp(s: Sched, preempt: bool, i: nat) returns (j: nat)
    requires Ok(s) && 0 < i < |s.queue|
    ensures j < |s.queue| && Step(s, preempt).queue[j] == s.queue[i] && Wait(Step(s, preempt), j) < Wait(s, i)
  {
    WaitShrinks(s, preempt, i);
    var t := s.queue[0];
    if s.slices[t] > 1 && preempt {
      j := i;
      assert [t] + s.queue[1..] == s.queue;
    } else {
      j := i - 1;
    }
  }

  /** Whoever yields early and whoever is preempted, a task is at the front once the slices ahead are used up. */
  lemma {:induction false} FrontWithin(s: Sched, flags: seq<bool>, i: nat) returns (k: nat)
    requires Ok(s) && i < |s.queue| && |flags| >= Wait(s, i)
    ensures k <= Wait(s, i) && Steps(s, flags[..k]).queue[0] == s.queue[i]
    decreases |flags|
  {
    if i == 0 {
      k := 0;
    } else {
      var j := MovesUp(s, flags[0], i);
      k := FrontWithin(Step(s, flags[0]), flags[1..], j);
      k := k + 1;
      assert flags[..k][1..] == flags[1..][..k - 1];
    }
  }

  /** A task at index i is at the front within i * S steps. */
  lemma FrontWithinSlices(s: Sched, flags: seq<bool>, i: nat)
    requires Ok(s) && i < |s.queue| && s.full >= 1 && |flags| >= i * s.full
    requires forall t | t in s.queue :: s.slices[t] <= s.full
    ensures exists k: nat | k <= i * s.full && k <= |flags| :: Steps(s, flags[..k]).queue[0] == s.queue[i]
  {
    WaitBound(s, i);
    var k := FrontWithin(s, flags, i);
  }

  // ---------------------------------------------------------------- the scheduler object

  class RRScheduler {
    const full: nat
    var slices: map<TaskId, int>
    var readyQueue: seq<TaskId>

    ghost function View(): Sched
      reads this
    {
      Sched(full, slices, readyQueue)
    }

    constructor (full: nat)
      ensures View() == Sched(full, map[], [])
    {
      this.full, slices, readyQueue := full, map[], [];
    }

    /** A task wrapper starts with a full slice. */
    method NewTask(t: TaskId)
      modifies this`slices
      ensures slices == old(slices)[t := full]
    {
      slices := slices[t := full];
    }

    method AddTask(t: TaskId)
      modifies this`readyQueue
      ensures View() == Add(old(View()), t) && readyQueue == old(readyQueue) + [t]
    {
      readyQueue := readyQueue + [t];
    }

    method RemoveTask(t: TaskId) returns (r: Option<TaskId>)
      modifies this`readyQueue
      ensures t !in old(readyQueue) ==> r == None && readyQueue == old(readyQueue)
      ensures t in old(readyQueue) ==> r == Some(t) && exists i | 0 <= i < |old(readyQueue)| ::
        IsFirst(old(readyQueue), t, i) && readyQueue == old(readyQueue)[..i] + old(readyQueue)[i + 1..]
    {
      var i := 0;
      while i < |readyQueue| && readyQueue[i] != t
        invariant 0 <= i <= |readyQueue| && t !in readyQueue[..i]
      {
        i := i + 1;
      }
      if i < |readyQueue| {
        assert IsFirst(readyQueue, t, i);
        r := Some(readyQueue[i]);
        readyQueue := readyQueue[..i] + readyQueue[i + 1..];
      } else {
        r := None;
      }
    }

    method PickNextTask() returns (r: Option<TaskId>)
      modifies this`readyQueue
      ensures (View(), r) == Pick(old(View()))
      ensures if old(readyQueue) == [] then r == None && readyQueue == []
        else r == Some(old(readyQueue)[0]) && readyQueue == old(readyQueue)[1..]
    {
      if readyQueue == [] {
        r := None;
      } else {
        r := Some(readyQueue[0]);
        readyQueue := readyQueue[1..];
      }
    }

    method PutPrevTask(t: TaskId, preempt: bool)
      requires t in slices
      modifies this`readyQueue, this`slices
      ensures View() == Put(old(View()), t, preempt)
      ensures if preempt && old(slices)[t] > 0 then readyQueue == [t] + old(readyQueue) && slices == old(slices)
        else readyQueue == old(readyQueue) + [t] && slices == old(slices)[t := full]
    {
      if slices[t] > 0 && preempt {
        readyQueue := [t] + readyQueue;
      } else {
        slices := slices[t := full];
        readyQueue := readyQueue + [t];
      }
    }

    /** Whether the slice is used up. */
    method TaskTick(t: TaskId) returns (expired: bool)
      requires t in slices
      modifies this`slices
      ensures (View(), expired) == Tick(old(View()), t)
      ensures slices == old(slices)[t := old(slices)[t] - 1] && (expired <==> slices[t] <= 0)
    {
      var oldSlice := slices[t];
      slices := slices[t := oldSlice - 1];
      expired := oldSlice <= 1;
    }
  }
}
