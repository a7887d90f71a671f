/**
 The task layer's own code: the scheduling loop, the waker, the wait list and the mutex as methods that update
 the kernel's state in place.  Each is proved to take the steps of the step system; `notify_all`, which the
 mutex does not use, is a wake of every waiter instead.
 */
module TaskLayer {

  import opened TaskSystem

  /** The steps `acts` lead from `s` to `s1`. */
  ghost predicate Reaches(s: System, acts: seq<Action>, s1: System) {
    Legal(s, acts) && Exec(s, acts) == s1
  }

  lemma OneMoreStep(s: System, acts: seq<Action>, s1: System, a: Action)
    requires Reaches(s, acts, s1) && Enabled(s1, a)
    ensures Reaches(s, acts + [a], Apply(s1, a))
  {
    assert (acts + [a])[..|acts|] == acts;
  }

  /** Pop the front waiter of `m` and wake it. */
  ghost function PopAndWake(s: System, m: LockId): System
    requires m in s.locks
  {
    var q := s.locks[m].queue;
    if q == [] then s else Wake(s.(locks := s.locks[m := s.locks[m].(queue := q[1..])]), q[0])
  }

  ghost function WakeAll(s: System, m: LockId): System
    requires m in s.locks
    decreases |s.locks[m].queue|
  {
    if s.locks[m].queue == [] || s.panicked then s else WakeAll(PopAndWake(s, m), m)
  }

  lemma WakeAllStep(s: System, m: LockId)
    requires m in s.locks
    ensures s.locks[m].queue != [] && !s.panicked ==>
      m in PopAndWake(s, m).locks && WakeAll(s, m) == WakeAll(PopAndWake(s, m), m)
    ensures s.locks[m].queue == [] || s.panicked ==> WakeAll(s, m) == s
  {
  }

  lemma PopKeepsWaiters(s: System, m: LockId)
    requires m in s.locks && s.locks[m].queue != []
    ensures var s1 := PopAndWake(s, m);
      m in s1.locks && s1.locks[m].queue == s.locks[m].queue[1..] && s.tasks.Keys <= s1.tasks.Keys
  {
  }

  /** A whole poll of the lock future that nothing interrupts. */
  ghost function LockPolled(s: System, c: CpuId, m: LockId): System
    requires HasCurrent(s, c) && m in s.locks
  {
    if s.locks[m].owner == 0 then Acquire(s, c, m)
    else if s.locks[m].owner == s.cpus[c].task then Panic(s)
    else
      var t := s.cpus[c].task;
      s.(tasks := s.tasks[t := s.tasks[t].(state := Blocking, phase := Parked(m))],
         locks := s.locks[m := s.locks[m].(queue := s.locks[m].queue + [t])])
  }

  /** A whole poll is the swap, or the failed swap, the test of the owner word and the registration in a row. */
  lemma LockPollIsSteps(s: System, c: CpuId, m: LockId)
    requires !s.panicked && HasCurrent(s, c) && m in s.locks && s.cpus[c].task != 0 && Cur(s, c).phase == Cas(m)
    ensures var acts := if s.locks[m].owner == 0 then [CasOk(c)]
                        else if s.locks[m].owner == s.cpus[c].task then [CasFail(c)]
                        else [CasFail(c)] + [TestOwner(c)] + [Enqueue(c)];
      Reaches(s, acts, LockPolled(s, c, m))
  {
    if s.locks[m].owner == 0 {
      OneMoreStep(s, [], s, CasOk(c));
    } else {
      OneMoreStep(s, [], s, CasFail(c));
      assert [] + [CasFail(c)] == [CasFail(c)];
      if s.locks[m].owner != s.cpus[c].task {
        var s1 := Apply(s, CasFail(c));
        OneMoreStep(s, [CasFail(c)], s1, TestOwner(c));
        OneMoreStep(s, [CasFail(c)] + [TestOwner(c)], Apply(s1, TestOwner(c)), Enqueue(c));
      }
    }
  }

  /** The wait list of `m` holds waiters of `m`, each once. */
  ghost predicate AllWaiting(s: System, m: LockId)
    requires m in s.locks
  {
    var q := s.locks[m].queue;
    && (forall i | 0 <= i < |q| :: Waiting(s, q[i], m))
    && (forall i, j | 0 <= i < j < |q| :: q[i] != q[j])
  }

  function Woken(state: TaskState): TaskState {
    match state
    case Blocking => Waked
    case Blocked => Runable
    case _ => state
  }

  /** What `notify_all` does to task `t`. */
  ghost predicate WokenAll(s: System, s1: System, m: LockId, t: TaskId)
    requires m in s.locks && t in s.tasks
  {
    var listed := t in s.locks[m].queue;
    && !s1.panicked && t in s1.tasks
    && s1.tasks[t] == (if listed then s.tasks[t].(state := Woken(s.tasks[t].state)) else s.tasks[t])
    && s1.ready[t] == s.ready[t] + (if listed && s.tasks[t].state == Blocked then 1 else 0)
  }

  lemma WakeHead(s: System, m: LockId, t: TaskId)
    requires m in s.locks && !s.panicked && AllWaiting(s, m) && s.locks[m].queue != [] && t in s.tasks
    ensures var s1, q := PopAndWake(s, m), s.locks[m].queue;
      && m in s1.locks && s1.locks[m] == s.locks[m].(queue := q[1..]) && !s1.panicked && AllWaiting(s1, m)
      && t in s1.tasks
      && s1.tasks[t] == (if t == q[0] then s.tasks[t].(state := Woken(s.tasks[t].state)) else s.tasks[t])
      && s1.ready[t] == s.ready[t] + (if t == q[0] && s.tasks[t].state == Blocked then 1 else 0)
  {
    var q := s.locks[m].queue;
    assert Waiting(s, q[0], m);
  }

  /** `notify_all` empties the list and wakes every waiter once; nobody else is touched. */
  lemma {:induction false} WakeAllWakesAll(s: System, m: LockId, t: TaskId)
    requires m in s.locks && !s.panicked && AllWaiting(s, m) && t in s.tasks
    ensures WokenAll(s, WakeAll(s, m), m, t)
    ensures m in WakeAll(s, m).locks && WakeAll(s, m).locks[m] == s.locks[m].(queue := [])
    decreases |s.locks[m].queue|
  {
    var q := s.locks[m].queue;
    if q != [] {
      WakeHead(s, m, t);
      WakeAllWakesAll(PopAndWake(s, m), m, t);
      assert q == [q[0]] + q[1..];
    }
  }

  lemma TwiceInQueue(q: seq<TaskId>, i: nat, j: nat)
    requires i < j < |q| && q[i] == q[j]
    ensures multiset(q)[q[i]] >= 2
  {
    assert q == q[..j] + q[j..];
    assert q[i] in q[..j] && q[j] in q[j..];
  }

  /** In every run every wait list is in that shape, so `notify_all` wakes exactly the waiters. */
  lemma WaitListsHoldWaiters(s0: System, s: System, m: LockId)
    requires Reachable(s0, s) && m in s.locks
    ensures AllWaiting(s, m)
  {
    ReachableInv(s0, s);
    var home :| InvAt(s, home);
    var q := s.locks[m].queue;
    forall i | 0 <= i < |q| ensures Waiting(s, q[i], m) {
      assert NodeOk(s, m, q[i]);
      assert q[i] in multiset(q);
    }
    forall i, j | 0 <= i < j < |q| ensures q[i] != q[j] {
      assert NodeOk(s, m, q[i]);
      if q[i] == q[j] { TwiceInQueue(q, i, j); }
    }
  }

  // ---------------------------------------------------------------- what the code does, field by field

  /** A wake of `u` changed its state, and queued it if it was asleep. */
  ghost predicate WokeOne(tasks: map<TaskId, Task>, ready: multiset<TaskId>, tasks1: map<TaskId, Task>, ready1: multiset<TaskId>,
                          u: TaskId) {
    && u in tasks && tasks1 == tasks[u := tasks[u].(state := Woken(tasks[u].state))]
    && ready1 == ready + if tasks[u].state == Blocked then multiset{u} else multiset{}
  }

  /** A task that runs again: a parked lock future retries its swap, any other future goes on with its code. */
  ghost predicate Resumed(k: Task, k1: Task) {
    && k1.state == Running && k1.guards == k.guards && k1.refs == k.refs
    && (k.phase.Parked? ==> k1.phase == Cas(k.phase.lock))
    && (k.phase.Code? || k.phase.Yielded? ==> k1.phase == Code)
  }

  /** A ready task left the queue and is current on `c`. */
  ghost predicate MadeCurrent(s: System, s1: System, c: CpuId, t: TaskId) {
    && t in s.ready && s1.ready == s.ready - multiset{t} && s1.cpus == s.cpus[c := Current(t)]
    && s1.locks == s.locks && s1.panicked == s.panicked
    && t in s.tasks && t in s1.tasks && s1.tasks == s.tasks[t := s1.tasks[t]] && Resumed(s.tasks[t], s1.tasks[t])
  }

  /** After `Pending`: a running task is queued again and a blocking one sleeps, both off their CPU with one reference
      as before; one that was woken meanwhile runs on; any other state is a panic. */
  ghost predicate PolledPending(s: System, s1: System, c: CpuId, t: TaskId)
    requires t in s.tasks
  {
    var k := s.tasks[t];
    && (s1.panicked <==> s.panicked || k.state == Runable || k.state == Blocked || k.state == Exited)
    && (k.state == Running ==>
          s1.tasks == s.tasks[t := k.(state := Runable)] && s1.ready == s.ready + multiset{t} && s1.cpus == s.cpus[c := Idle])
    && (k.state == Blocking ==>
          s1.tasks == s.tasks[t := k.(state := Blocked)] && s1.ready == s.ready && s1.cpus == s.cpus[c := Idle])
    && (k.state == Waked ==>
          t in s1.tasks && s1.tasks == s.tasks[t := s1.tasks[t]] && Resumed(k, s1.tasks[t]) && s1.ready == s.ready && s1.cpus == s.cpus)
  }

  /** Task `t` took mutex `m`: the owner word names it and it has a guard; nothing else changed. */
  ghost predicate Took(s: System, s1: System, t: TaskId, m: LockId) {
    && m in s.locks && t in s.tasks && s1.locks == s.locks[m := Lock(t, s.locks[m].queue)]
    && s1.tasks == s.tasks[t := Task(s.tasks[t].state, Code, s.tasks[t].guards + {m}, s.tasks[t].refs)]
    && s1.ready == s.ready && s1.cpus == s.cpus && s1.panicked == s.panicked
  }

  /** Task `t` gave up mutex `m` and the first of its waiters, if any, was woken. */
  ghost predicate Released(tasks: map<TaskId, Task>, ready: multiset<TaskId>, tasks1: map<TaskId, Task>, ready1: multiset<TaskId>,
                           t: TaskId, m: LockId, waiters: seq<TaskId>) {
    && t in tasks
    && var dropped := tasks[t := Task(tasks[t].state, Code, tasks[t].guards - {m}, tasks[t].refs)];
    if waiters == [] then tasks1 == dropped && ready1 == ready else WokeOne(dropped, ready, tasks1, ready1, waiters[0])
  }

  lemma PendMeans(s: System, c: CpuId)
    requires HasCurrent(s, c)
    ensures Pend(s, c).locks == s.locks && PolledPending(s, Pend(s, c), c, s.cpus[c].task)
  {
  }

  /** Dropping a guard of one's own. */
  lemma ReleaseMeans(s: System, c: CpuId, m: LockId)
    requires Enabled(s, Unlock(c, m)) && s.locks[m].owner == s.cpus[c].task && forall t | t in s.locks[m].queue :: t in s.tasks
    ensures var s1 := Apply(s, Unlock(c, m));
      && Enabled(s1, Action.NotifyOne(c))
      && var s2 := Apply(s1, Action.NotifyOne(c));
      && s2.locks == s.locks[m := Lock(0, if s.locks[m].queue == [] then [] else s.locks[m].queue[1..])]
      && Released(s.tasks, s.ready, s2.tasks, s2.ready, s.cpus[c].task, m, s.locks[m].queue)
  {
    var t, q := s.cpus[c].task, s.locks[m].queue;
    var dropped := Task(s.tasks[t].state, Code, s.tasks[t].guards - {m}, s.tasks[t].refs);
    assert s.tasks[t := dropped.(phase := Notify(m))][t := dropped] == s.tasks[t := dropped];
    if q != [] && q[0] in s.tasks {
      var u := s.tasks[t := dropped][q[0]];
      assert Woken(u.state) == u.state ==> s.tasks[t := dropped][q[0] := u.(state := u.state)] == s.tasks[t := dropped];
      assert s.ready + multiset{} == s.ready;
    }
  }

  /** The state in which the current task of `c` has yielded. */
  ghost function Away(s: System, c: CpuId): System
    requires HasCurrent(s, c)
  {
    var t := s.cpus[c].task;
    s.(tasks := s.tasks[t := s.tasks[t].(state := Runable, phase := Yielded)], ready := s.ready + multiset{t}, cpus := s.cpus[c := Idle])
  }

  lemma YieldGoesAway(s: System, c: CpuId)
    requires Enabled(s, Yield(c)) && Cur(s, c).state == Running
    ensures Reaches(s, [Yield(c)] + [PendingMatch(c)], Away(s, c))
  {
    OneMoreStep(s, [], s, Yield(c));
    assert [] + [Yield(c)] == [Yield(c)];
    OneMoreStep(s, [Yield(c)], Apply(s, Yield(c)), PendingMatch(c));
  }

  lemma PickedAgain(s: System, c: CpuId)
    requires Enabled(s, Yield(c)) && Cur(s, c).state == Running
    ensures var t := s.cpus[c].task;
      && Enabled(Away(s, c), Pick(c, t)) && Enabled(Apply(Away(s, c), Pick(c, t)), InitCurrent(c))
      && Apply(Apply(Away(s, c), Pick(c, t)), InitCurrent(c)) == s
  {
    var t := s.cpus[c].task;
    assert s.ready + multiset{t} - multiset{t} == s.ready;
    assert s.cpus[c := Idle][c := Picked(t)][c := Current(t)] == s.cpus;
    assert s.tasks[t := s.tasks[t].(state := Runable, phase := Yielded)][t := s.tasks[t]] == s.tasks;
  }

  /** Yielding goes round: the task is off its CPU and ready; picked again, it is where it was, guards and all. */
  lemma YieldComesBack(s: System, c: CpuId)
    requires Enabled(s, Yield(c)) && Cur(s, c).state == Running
    ensures Reaches(s, [Yield(c)] + [PendingMatch(c)], Away(s, c))
    ensures Reaches(s, [Yield(c)] + [PendingMatch(c)] + [Pick(c, s.cpus[c].task)] + [InitCurrent(c)], s)
  {
    var t, gone := s.cpus[c].task, [Yield(c)] + [PendingMatch(c)];
    YieldGoesAway(s, c);
    PickedAgain(s, c);
    OneMoreStep(s, gone, Away(s, c), Pick(c, t));
    OneMoreStep(s, gone + [Pick(c, t)], Apply(Away(s, c), Pick(c, t)), InitCurrent(c));
  }

  class Kernel {
    var tasks: map<TaskId, Task>
    var cpus: map<CpuId, Slot>
    var ready: multiset<TaskId>
    var locks: map<LockId, Lock>
    var panicked: bool

    ghost function View(): System
      reads this
    {
      System(tasks, cpus, ready, locks, panicked)
    }

    constructor (cpuIds: set<CpuId>, lockIds: set<LockId>)
      ensures Init(View()) && cpus.Keys == cpuIds && locks.Keys == lockIds
    {
      tasks, ready, panicked := map[], multiset{}, false;
      cpus := map c | c in cpuIds :: Idle;
      locks := map m | m in lockIds :: Lock(0, []);
    }

    method SetState(t: TaskId, state: TaskState)
      requires t in tasks
      modifies this`tasks
      ensures tasks == old(tasks)[t := old(tasks)[t].(state := state)]
    {
      tasks := tasks[t := tasks[t].(state := state)];
    }

    // -------------------------------------------------------------- the waker

    method WakeupTask(t: TaskId)
      requires t in tasks
      modifies this`tasks, this`ready, this`panicked
      ensures View() == Wake(old(View()), t)
      ensures tasks == old(tasks)[t := old(tasks)[t].(state := Woken(old(tasks)[t].state))]
      ensures ready == old(ready) + if old(tasks)[t].state == Blocked then multiset{t} else multiset{}
      ensures panicked <==> old(panicked) || old(tasks)[t].state == Waked || old(tasks)[t].state == Exited
    {
      match tasks[t].state
      case Running =>
      case Blocking => SetState(t, Waked);
      case Runable =>
      case Blocked =>
        SetState(t, Runable);
        ready := ready + multiset{t};
      case Waked => panicked := true;
      case Exited => panicked := true;
    }

    // -------------------------------------------------------------- the wait list

    method PrepareToWait(m: LockId, t: TaskId)
      requires m in locks && t in tasks
      modifies this`tasks, this`locks
      ensures tasks == old(tasks)[t := old(tasks)[t].(state := Blocking)]
      ensures locks == old(locks)[m := old(locks)[m].(queue := old(locks)[m].queue + [t])]
    {
      SetState(t, Blocking);
      locks := locks[m := locks[m].(queue := locks[m].queue + [t])];
    }

    method NotifyOne(m: LockId) returns (notified: bool)
      requires m in locks && forall t | t in locks[m].queue :: t in tasks
      modifies this`tasks, this`ready, this`locks, this`panicked
      ensures View() == PopAndWake(old(View()), m) && notified == (old(locks)[m].queue != [])
      ensures !notified ==> View() == old(View())
      ensures notified ==> locks == old(locks)[m := Lock(old(locks)[m].owner, old(locks)[m].queue[1..])]
      ensures notified ==> WokeOne(old(tasks), old(ready), tasks, ready, old(locks)[m].queue[0])
    {
      var q := locks[m].queue;
      if q == [] { return false; }
      locks := locks[m := locks[m].(queue := q[1..])];
      WakeupTask(q[0]);
      return true;
    }

    method NotifyAll(m: LockId)
      requires m in locks && forall t | t in locks[m].queue :: t in tasks
      modifies this`tasks, this`ready, this`locks, this`panicked
      ensures View() == WakeAll(old(View()), m)
    {
      while true
        invariant m in locks && forall t | t in locks[m].queue :: t in tasks
        invariant WakeAll(View(), m) == WakeAll(old(View()), m)
        decreases |locks[m].queue|
      {
        WakeAllStep(View(), m);
        if panicked { return; }
        if locks[m].queue != [] { PopKeepsWaiters(View(), m); }
        var notified := NotifyOne(m);
        if !notified { break; }
      }
    }

    // -------------------------------------------------------------- the scheduling loop

    /** One turn of the loop on CPU `c`: take the current task, or make a ready one current. */
    method Dispatch(c: CpuId) returns (busy: bool, ghost acts: seq<Action>)
      requires c in cpus && !cpus[c].Picked? && !panicked && forall t | t in ready :: t in tasks
      modifies this`tasks, this`cpus, this`ready
      ensures Reaches(old(View()), acts, View())
      ensures busy <==> old(cpus)[c].Current? || old(ready) != multiset{}
      ensures busy ==> c in cpus && cpus[c].Current?
      ensures !busy || old(cpus)[c].Current? ==> View() == old(View())
      ensures busy && old(cpus)[c].Idle? ==> MadeCurrent(old(View()), View(), c, cpus[c].task)
    {
      acts := [];
      if cpus[c].Current? { return true, acts; }
      if ready == multiset{} { return false, acts; }
      var t := PickNextTask(c);
      acts := [Pick(c, t)];
      OneMoreStep(old(View()), [], old(View()), Pick(c, t));
      assert [] + [Pick(c, t)] == acts;
      OneMoreStep(old(View()), acts, View(), InitCurrent(c));
      MakeCurrent(c);
      acts := acts + [InitCurrent(c)];
      return true, acts;
    }

    method PickNextTask(c: CpuId) returns (t: TaskId)
      requires c in cpus && cpus[c].Idle? && ready != multiset{} && !panicked
      modifies this`cpus, this`ready
      ensures t in old(ready) && View() == Apply(old(View()), Pick(c, t))
      ensures ready == old(ready) - multiset{t} && cpus == old(cpus)[c := Picked(t)]
    {
      t :| t in ready;
      ready := ready - multiset{t};
      cpus := cpus[c := Picked(t)];
    }

    method MakeCurrent(c: CpuId)
      requires Enabled(View(), InitCurrent(c))
      modifies this`tasks, this`cpus
      ensures View() == Apply(old(View()), InitCurrent(c))
      ensures cpus == old(cpus)[c := Current(old(cpus)[c].task)]
      ensures var t := old(cpus)[c].task; t in tasks && tasks == old(tasks)[t := tasks[t]] && Resumed(old(tasks)[t], tasks[t])
    {
      var t := cpus[c].task;
      SetState(t, Running);
      tasks := tasks[t := tasks[t].(phase := Resume(tasks[t].phase))];
      cpus := cpus[c := Current(t)];
    }

    /** `clean_current` gives up the CPU's reference; `clean_current_without_drop` leaves it to the waker. */
    method CleanCurrent(c: CpuId, drop: bool)
      requires c in cpus && cpus[c].Current? && cpus[c].task in tasks
      modifies this`tasks, this`cpus
      ensures cpus == old(cpus)[c := Idle]
      ensures var t := old(cpus)[c].task;
        tasks == old(tasks)[t := old(tasks)[t].(refs := old(tasks)[t].refs - if drop then 1 else 0)]
    {
      var t := cpus[c].task;
      tasks := tasks[t := tasks[t].(refs := tasks[t].refs - if drop then 1 else 0)];
      cpus := cpus[c := Idle];
    }

    /** The future returned `Pending`. */
    method PollPending(c: CpuId)
      requires Enabled(View(), PendingMatch(c))
      modifies this`tasks, this`cpus, this`ready, this`panicked
      ensures View() == Apply(old(View()), PendingMatch(c))
      ensures locks == old(locks) && PolledPending(old(View()), View(), c, old(cpus)[c].task)
    {
      PendMeans(View(), c);
      var t := cpus[c].task;
      match tasks[t].state
      case Running =>
        SetState(t, Runable);
        // the ready queue gets a clone of the reference
        tasks := tasks[t := tasks[t].(refs := tasks[t].refs + 1)];
        ready := ready + multiset{t};
        CleanCurrent(c, true);
      case Runable => panicked := true;
      case Blocking =>
        SetState(t, Blocked);
        CleanCurrent(c, false);
      case Waked =>
        SetState(t, Running);
        tasks := tasks[t := tasks[t].(phase := Resume(tasks[t].phase))];
      case Blocked => panicked := true;
      case Exited => panicked := true;
    }

    /** The future returned `Ready`. */
    method PollReady(c: CpuId)
      requires Enabled(View(), Finish(c))
      modifies this`tasks, this`cpus
      ensures View() == Apply(old(View()), Finish(c))
      ensures cpus == old(cpus)[c := Idle]
      ensures var t := old(cpus)[c].task;
        tasks == old(tasks)[t := Task(Exited, Finished, old(tasks)[t].guards, old(tasks)[t].refs - 1)]
    {
      var t := cpus[c].task;
      SetState(t, Exited);
      tasks := tasks[t := tasks[t].(phase := Finished)];
      CleanCurrent(c, true);
    }

    // -------------------------------------------------------------- the mutex

    method Acquired(c: CpuId, m: LockId)
      requires HasCurrent(View(), c) && m in locks
      modifies this`tasks, this`locks
      ensures View() == Acquire(old(View()), c, m) && Took(old(View()), View(), cpus[c].task, m)
    {
      var t := cpus[c].task;
      locks := locks[m := locks[m].(owner := t)];
      tasks := tasks[t := tasks[t].(phase := Code, guards := tasks[t].guards + {m})];
    }

    method TryToLock(c: CpuId, m: LockId) returns (ok: bool)
      requires Enabled(View(), TryLock(c, m))
      modifies this`tasks, this`locks
      ensures View() == Apply(old(View()), TryLock(c, m)) && ok == (old(locks)[m].owner == 0)
      ensures ok ==> Took(old(View()), View(), cpus[c].task, m)
      ensures ok ==> locks[m].owner == cpus[c].task && m in tasks[cpus[c].task].guards
      ensures !ok ==> View() == old(View())
    {
      ok := locks[m].owner == 0;
      if ok { Acquired(c, m); }
    }

    /** One poll of the lock future.  `spurious` says which of its weak swaps fail for no reason; they never
        change the outcome: the guard if the lock is free, a place in the wait list otherwise. */
    method PollLock(c: CpuId, m: LockId, spurious: seq<bool>) returns (got: bool)
      requires HasCurrent(View(), c) && m in locks && cpus[c].task != 0 && tasks[cpus[c].task].phase == Cas(m)
      modifies this`tasks, this`locks, this`panicked
      ensures View() == LockPolled(old(View()), c, m) && got == (old(locks)[m].owner == 0)
      ensures got ==> Took(old(View()), View(), cpus[c].task, m)
      ensures panicked <==> old(panicked) || old(locks)[m].owner == cpus[c].task
      ensures old(locks)[m].owner == cpus[c].task ==> tasks == old(tasks) && locks == old(locks)
      ensures !got && old(locks)[m].owner != cpus[c].task ==>
        && locks == old(locks)[m := Lock(old(locks)[m].owner, old(locks)[m].queue + [cpus[c].task])]
        && tasks == old(tasks)[cpus[c].task := old(tasks)[cpus[c].task].(state := Blocking, phase := Parked(m))]
    {
      var t, tries := cpus[c].task, 0;
      while true
        invariant View() == old(View())
        decreases |spurious| - tries
      {
        if locks[m].owner == 0 && !(tries < |spurious| && spurious[tries]) {
          Acquired(c, m);
          return true;
        }
        if locks[m].owner == t {
          panicked := true;
          return false;
        }
        if locks[m].owner != 0 {
          PrepareToWait(m, t);
          tasks := tasks[t := tasks[t].(phase := Parked(m))];
          return false;
        }
        tries := tries + 1;
      }
    }

    /** Clears the owner word; the guard is gone. */
    method ClearOwner(c: CpuId, m: LockId)
      requires Enabled(View(), Unlock(c, m)) && locks[m].owner == cpus[c].task
      modifies this`tasks, this`locks
      ensures View() == Apply(old(View()), Unlock(c, m))
    {
      var t := cpus[c].task;
      locks := locks[m := locks[m].(owner := 0)];
      tasks := tasks[t := tasks[t].(guards := tasks[t].guards - {m}, phase := Notify(m))];
    }

    /** Back in ordinary code, with the first waiter of `m` woken. */
    method NotifyNext(c: CpuId, m: LockId)
      requires Enabled(View(), Action.NotifyOne(c)) && tasks[cpus[c].task].phase == Notify(m)
      requires forall t | t in locks[m].queue :: t in tasks
      modifies this`tasks, this`ready, this`locks, this`panicked
      ensures View() == Apply(old(View()), Action.NotifyOne(c))
    {
      var t := cpus[c].task;
      tasks := tasks[t := tasks[t].(phase := Code)];
      var notified := NotifyOne(m);
    }

    /** Dropping a guard: clear the owner word, then wake the first waiter. */
    method ForceUnlock(c: CpuId, m: LockId)
      requires Enabled(View(), Unlock(c, m)) && forall t | t in locks[m].queue :: t in tasks
      modifies this`tasks, this`ready, this`locks, this`panicked
      ensures var s := Apply(old(View()), Unlock(c, m));
        View() == if s.panicked then s else Apply(s, Action.NotifyOne(c))
      ensures old(locks)[m].owner != cpus[c].task ==> View() == old(View()).(panicked := true)
      ensures old(locks)[m].owner == cpus[c].task ==>
        && locks == old(locks)[m := Lock(0, if old(locks)[m].queue == [] then [] else old(locks)[m].queue[1..])]
        && Released(old(tasks), old(ready), tasks, ready, cpus[c].task, m, old(locks)[m].queue)
    {
      if locks[m].owner == cpus[c].task { ReleaseMeans(View(), c, m); }
      var t := cpus[c].task;
      if locks[m].owner != t {
        panicked := true;
        return;
      }
      ClearOwner(c, m);
      NotifyNext(c, m);
    }
  }
}
