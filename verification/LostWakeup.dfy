/**
 Lost wakeups of the async mutex.

 The test of the owner word and the registration in the wait list are two steps.  With one CPU no step
 of another task fits between them, and a free mutex with waiters always has a notified task on its way
 to retry.  With two CPUs an unlock fits between them, and the last waiter can sleep forever.
 */
module LostWakeup {
  import opened TaskSystem

  /** `t` will try to take `m` without being notified again, or is about to notify a waiter of `m`. */
  ghost predicate OnItsWay(s: System, m: LockId, t: TaskId) {
    && t in s.tasks
    && (|| (s.tasks[t].phase == Parked(m) && s.tasks[t].state == Runable)
        || s.tasks[t].phase in {Cas(m), Check(m), Notify(m)})
  }

  ghost predicate LockOk(s: System, m: LockId)
    requires m in s.locks
  {
    s.locks[m].owner == 0 && s.locks[m].queue != [] ==> exists t :: OnItsWay(s, m, t)
  }

  /** A task that saw `m` held registers while `m` is still held. */
  ghost predicate RegisterOk(s: System, t: TaskId) {
    t in s.tasks && s.tasks[t].phase.Register? && s.tasks[t].phase.lock in s.locks ==>
    s.locks[s.tasks[t].phase.lock].owner != 0
  }

  ghost predicate OneCpu(s: System) {
    forall c, d | c in s.cpus && d in s.cpus :: c == d
  }

  ghost predicate UniInv(s: System, home: map<TaskId, Place>) {
    && InvAt(s, home) && OneCpu(s)
    && (forall m {:trigger LockOk(s, m)} :: m in s.locks ==> LockOk(s, m))
    && (forall t {:trigger RegisterOk(s, t)} :: RegisterOk(s, t))
  }

  /** With one CPU, a task whose code is inside a mutex operation is the acting one. */
  lemma OnlyActorIsInside(s: System, home: map<TaskId, Place>, c: CpuId, t: TaskId)
    requires InvAt(s, home) && OneCpu(s) && c in s.cpus && t in s.tasks
    requires (!Dispatchable(s.tasks[t].phase) && s.tasks[t].phase != Finished) || s.tasks[t].state in {Running, Blocking, Waked}
    ensures s.cpus[c] == Current(t)
  {
    assert TaskOk(s, home, t);
  }

  lemma LocalStepKeepsRegister(s: System, home: map<TaskId, Place>, a: Action, t: TaskId)
    requires UniInv(s, home) && Enabled(s, a) && Local(a)
    ensures RegisterOk(Apply(s, a), t)
  {
    UseFacts(s, home, a);
    assert RegisterOk(s, t);
    if t in s.tasks && s.tasks[t].phase.Register? { OnlyActorIsInside(s, home, a.c, t); }
  }

  lemma StepKeepsRegister(s: System, home: map<TaskId, Place>, a: Action, t: TaskId)
    requires UniInv(s, home) && Enabled(s, a)
    ensures RegisterOk(Apply(s, a), t)
  {
    if Local(a) {
      LocalStepKeepsRegister(s, home, a, t);
    } else {
      UseFacts(s, home, a);
      assert RegisterOk(s, t);
    }
  }

  /** A task on its way stays so unless it takes the lock, sees it held, or passes the duty on. */
  lemma StepKeepsLock(s: System, home: map<TaskId, Place>, a: Action, m: LockId)
    requires UniInv(s, home) && Enabled(s, a) && m in Apply(s, a).locks
    ensures LockOk(Apply(s, a), m)
  {
    UseFacts(s, home, a);
    var s1 := Apply(s, a);
    if s1.locks[m].owner == 0 && s1.locks[m].queue != [] {
      if a.Unlock? && a.m == m {
        assert OnItsWay(s1, m, s.cpus[a.c].task);
      } else if a.NotifyOne? && Cur(s, a.c).phase.lock == m {
        PopHandsOver(s, home, a.c);
      } else {
        if a.Enqueue? { assert RegisterOk(s, s.cpus[a.c].task); }
        assert LockOk(s, m);
        var t :| OnItsWay(s, m, t);
        OthersStayOnTheirWay(s, home, a, m, t);
      }
    }
  }

  lemma PopHandsOver(s: System, home: map<TaskId, Place>, c: CpuId)
    requires UniInv(s, home) && Enabled(s, NotifyOne(c)) && s.locks[Cur(s, c).phase.lock].queue != []
    ensures var m := Cur(s, c).phase.lock;
      OnItsWay(Apply(s, NotifyOne(c)), m, s.locks[m].queue[0])
  {
    UseFacts(s, home, NotifyOne(c));
    var u := s.locks[Cur(s, c).phase.lock].queue[0];
    if s.tasks[u].state == Blocking { OnlyActorIsInside(s, home, c, u); }
  }

  lemma OthersStayLocally(s: System, home: map<TaskId, Place>, a: Action, m: LockId, t: TaskId)
    requires UniInv(s, home) && Enabled(s, a) && Local(a) && m in s.locks && OnItsWay(s, m, t)
    requires Apply(s, a).locks[m].owner == 0 && s.locks[m].owner == 0
    ensures OnItsWay(Apply(s, a), m, t)
  {
    UseFacts(s, home, a);
  }

  lemma OthersStayOnTheirWay(s: System, home: map<TaskId, Place>, a: Action, m: LockId, t: TaskId)
    requires UniInv(s, home) && Enabled(s, a) && m in s.locks && OnItsWay(s, m, t)
    requires Apply(s, a).locks[m].owner == 0 && s.locks[m].owner == 0
    requires a.NotifyOne? ==> Cur(s, a.c).phase.lock != m
    ensures OnItsWay(Apply(s, a), m, t)
  {
    if Local(a) { OthersStayLocally(s, home, a, m, t); } else { UseFacts(s, home, a); }
  }

  lemma StepKeepsOneCpu(s: System, a: Action)
    requires OneCpu(s) && Enabled(s, a)
    ensures OneCpu(Apply(s, a))
  {
    assert Apply(s, a).cpus.Keys <= s.cpus.Keys;
  }

  lemma StepKeepsUniInv(s: System, home: map<TaskId, Place>, a: Action)
    requires UniInv(s, home) && Enabled(s, a)
    ensures UniInv(Apply(s, a), Move(s, home, a))
  {
    var s1 := Apply(s, a);
    StepKeepsInv(s, home, a);
    StepKeepsOneCpu(s, a);
    forall m | m in s1.locks ensures LockOk(s1, m) { StepKeepsLock(s, home, a, m); }
    forall t ensures RegisterOk(s1, t) { StepKeepsRegister(s, home, a, t); }
  }

  lemma {:induction false} RunKeepsUniInv(s: System, acts: seq<Action>) returns (home: map<TaskId, Place>)
    requires Init(s) && OneCpu(s) && Legal(s, acts)
    ensures UniInv(Exec(s, acts), home)
    decreases |acts|
  {
    if acts == [] {
      home := map[];
      InitHolds(s);
    } else {
      var before := acts[..|acts| - 1];
      var h := RunKeepsUniInv(s, before);
      StepKeepsUniInv(Exec(s, before), h, acts[|acts| - 1]);
      home := Move(Exec(s, before), h, acts[|acts| - 1]);
    }
  }

  /** Between polls: a free mutex with waiters has a task that was already notified, is in the ready
      queue, and retries `m` when picked. */
  ghost predicate WaiterNotified(s: System, m: LockId) {
    exists t :: t in s.ready && t in s.tasks && s.tasks[t].state == Runable && s.tasks[t].phase == Parked(m)
  }

  ghost predicate BetweenPolls(s: System) {
    forall c | c in s.cpus :: s.cpus[c] == Idle
  }

  ghost predicate NoLostWakeup(s: System) {
    BetweenPolls(s) ==>
    forall m | m in s.locks && s.locks[m].owner == 0 && s.locks[m].queue != [] :: WaiterNotified(s, m)
  }

  lemma OneCpuLosesNoWakeup(s0: System, s: System)
    requires Reachable(s0, s) && OneCpu(s0)
    ensures NoLostWakeup(s)
  {
    var acts :| Legal(s0, acts) && Exec(s0, acts) == s;
    var home := RunKeepsUniInv(s0, acts);
    if BetweenPolls(s) {
      forall m | m in s.locks && s.locks[m].owner == 0 && s.locks[m].queue != [] ensures WaiterNotified(s, m) {
        assert LockOk(s, m);
        var t :| OnItsWay(s, m, t);
        assert TaskOk(s, home, t);
      }
    }
  }

  /** A panic leaves its task on the CPU. */
  lemma NoPanicBetweenPolls(s0: System, s: System)
    requires Reachable(s0, s) && BetweenPolls(s)
    ensures !s.panicked
  {
    var acts: seq<Action> :| Legal(s0, acts) && Exec(s0, acts) == s;
    RunPanicsIff(s0, acts);
  }

  /** So the run is not stuck: the notified task can be picked and takes the lock at its first swap. */
  lemma NotifiedWaiterCanAcquire(s0: System, s: System, c: CpuId, m: LockId) returns (t: TaskId)
    requires Reachable(s0, s) && OneCpu(s0) && BetweenPolls(s) && c in s.cpus
    requires m in s.locks && s.locks[m].owner == 0 && s.locks[m].queue != []
    ensures Enabled(s, Pick(c, t))
    ensures var s1 := Apply(s, Pick(c, t));
      Enabled(s1, InitCurrent(c)) &&
      var s2 := Apply(s1, InitCurrent(c));
      Enabled(s2, CasOk(c)) &&
      var s3 := Apply(s2, CasOk(c));
      m in s3.locks && s3.locks[m].owner == t
  {
    OneCpuLosesNoWakeup(s0, s);
    NoPanicBetweenPolls(s0, s);
    t :| t in s.ready && t in s.tasks && s.tasks[t].state == Runable && s.tasks[t].phase == Parked(m);
  }

  // ---------------------------------------------------------------- how long a lost waiter sleeps

  /** `m` is free, `w` sleeps on it, and nobody is about to notify a waiter of `m`. */
  ghost predicate Lost(s: System, m: LockId, w: TaskId) {
    && m in s.locks && s.locks[m].owner == 0
    && w in s.tasks && s.tasks[w].state == Blocked && s.tasks[w].phase == Parked(m)
    && forall t | t in s.tasks :: s.tasks[t].phase != Notify(m)
  }

  lemma SleeperSleepsOn(s: System, home: map<TaskId, Place>, a: Action, m: LockId, w: TaskId)
    requires InvAt(s, home) && Enabled(s, a) && Lost(s, m, w)
    ensures w in Apply(s, a).tasks && Apply(s, a).tasks[w] == s.tasks[w]
  {
    UseFacts(s, home, a);
    assert TaskOk(s, home, w);
  }

  lemma NobodyUnlocks(s: System, home: map<TaskId, Place>, a: Action, m: LockId, w: TaskId, t: TaskId)
    requires InvAt(s, home) && Enabled(s, a) && Local(a) && Lost(s, m, w) && t in Apply(s, a).tasks
    ensures Apply(s, a).tasks[t].phase != Notify(m)
  {
    UseFacts(s, home, a);
  }

  lemma NobodyNotifies(s: System, home: map<TaskId, Place>, a: Action, m: LockId, w: TaskId, t: TaskId)
    requires InvAt(s, home) && Enabled(s, a) && Lost(s, m, w) && t in Apply(s, a).tasks
    ensures Apply(s, a).tasks[t].phase != Notify(m)
  {
    if Local(a) { NobodyUnlocks(s, home, a, m, w, t); } else { UseFacts(s, home, a); }
  }

  lemma LostStaysLost(s: System, home: map<TaskId, Place>, a: Action, m: LockId, w: TaskId)
    requires InvAt(s, home) && Enabled(s, a) && Lost(s, m, w)
    requires m in Apply(s, a).locks && Apply(s, a).locks[m].owner == 0
    ensures Lost(Apply(s, a), m, w)
  {
    SleeperSleepsOn(s, home, a, m, w);
    forall t | t in Apply(s, a).tasks ensures Apply(s, a).tasks[t].phase != Notify(m) {
      NobodyNotifies(s, home, a, m, w, t);
    }
  }

  /** Nobody takes `m` along the way. */
  ghost predicate NeverTaken(s: System, more: seq<Action>, m: LockId)
    requires Legal(s, more)
    decreases |more|
  {
    && m in Exec(s, more).locks && Exec(s, more).locks[m].owner == 0
    && (more == [] || NeverTaken(s, more[..|more| - 1], m))
  }

  /** A lost waiter sleeps through every continuation in which nobody takes the mutex. */
  lemma {:induction false} SleepsUntilTaken(s: System, more: seq<Action>, m: LockId, w: TaskId)
    requires Inv(s) && Lost(s, m, w) && Legal(s, more) && NeverTaken(s, more, m)
    ensures Inv(Exec(s, more)) && Lost(Exec(s, more), m, w)
    decreases |more|
  {
    if more != [] {
      var before := more[..|more| - 1];
      SleepsUntilTaken(s, before, m, w);
      var home: map<TaskId, Place> :| InvAt(Exec(s, before), home);
      StepKeepsInv(Exec(s, before), home, more[|more| - 1]);
      LostStaysLost(Exec(s, before), home, more[|more| - 1], m, w);
    }
  }

  // ---------------------------------------------------------------- two CPUs

  /** The part of the state that the two-CPU run touches. */
  datatype Scene = Scene(t1: Task, t2: Task, ready: multiset<TaskId>, onC: Slot, onD: Slot, lock: Lock)

  ghost function In(s: System, c: CpuId, d: CpuId, m: LockId, w: Scene): System {
    s.(tasks := map[1 := w.t1, 2 := w.t2], ready := w.ready, cpus := s.cpus[c := w.onC][d := w.onD],
       locks := s.locks[m := w.lock])
  }

  ghost predicate TwoCpus(s: System, c: CpuId, d: CpuId, m: LockId) {
    Init(s) && c in s.cpus && d in s.cpus && c != d && m in s.locks
  }

  /** `acts` leads from `s` to the scene `w`. */
  ghost predicate Shows(s: System, c: CpuId, d: CpuId, m: LockId, acts: seq<Action>, w: Scene) {
    TwoCpus(s, c, d, m) && Legal(s, acts) && Exec(s, acts) == In(s, c, d, m, w)
  }

  lemma Then(s: System, c: CpuId, d: CpuId, m: LockId, acts: seq<Action>, w: Scene, a: Action, w1: Scene)
    requires Shows(s, c, d, m, acts, w)
    requires Enabled(In(s, c, d, m, w), a) && Apply(In(s, c, d, m, w), a) == In(s, c, d, m, w1)
    ensures Shows(s, c, d, m, acts + [a], w1)
  {
    assert (acts + [a])[..|acts|] == acts;
  }

  const NEW := Task(Runable, Code, {}, 1)
  const RUNS := Task(Running, Code, {}, 1)

  lemma FirstTaskPicked(s: System, c: CpuId, d: CpuId, m: LockId) returns (acts: seq<Action>)
    requires TwoCpus(s, c, d, m)
    ensures Shows(s, c, d, m, acts, Scene(NEW, NEW, multiset{2}, Picked(1), Idle, Lock(0, [])))
  {
    acts := BothSpawned(s, c, d, m);
    var w := Scene(NEW, NEW, multiset{1, 2}, Idle, Idle, Lock(0, []));
    Then(s, c, d, m, acts, w, Pick(c, 1), w.(ready := multiset{2}, onC := Picked(1)));
    acts := acts + [Pick(c, 1)];
  }

  lemma FirstTaskRuns(s: System, c: CpuId, d: CpuId, m: LockId) returns (acts: seq<Action>)
    requires TwoCpus(s, c, d, m)
    ensures Shows(s, c, d, m, acts, Scene(RUNS, NEW, multiset{2}, Current(1), Idle, Lock(0, [])))
  {
    acts := FirstTaskPicked(s, c, d, m);
    var w := Scene(NEW, NEW, multiset{2}, Picked(1), Idle, Lock(0, []));
    Then(s, c, d, m, acts, w, InitCurrent(c), w.(t1 := RUNS, onC := Current(1)));
    acts := acts + [InitCurrent(c)];
  }

  /** Task 1 runs on `c` and holds the lock. */
  lemma FirstTaskLocks(s: System, c: CpuId, d: CpuId, m: LockId) returns (acts: seq<Action>)
    requires TwoCpus(s, c, d, m)
    ensures Shows(s, c, d, m, acts, Scene(RUNS.(guards := {m}), NEW, multiset{2}, Current(1), Idle, Lock(1, [])))
  {
    acts := FirstTaskRuns(s, c, d, m);
    var w := Scene(RUNS, NEW, multiset{2}, Current(1), Idle, Lock(0, []));
    var w1 := w.(t1 := RUNS.(guards := {m}), lock := Lock(1, []));
    assert {} + {m} == {m};
    Then(s, c, d, m, acts, w, TryLock(c, m), w1);
    acts := acts + [TryLock(c, m)];
  }

  lemma BothSpawned(s: System, c: CpuId, d: CpuId, m: LockId) returns (acts: seq<Action>)
    requires TwoCpus(s, c, d, m)
    ensures Shows(s, c, d, m, acts, Scene(NEW, NEW, multiset{1, 2}, Idle, Idle, Lock(0, [])))
  {
    acts := [Spawn(1), Spawn(2)];
    assert acts[..1] == [Spawn(1)] && acts[..1][..0] == [];
    assert Exec(s, []) == s;
    assert Exec(s, [Spawn(1)]) == Apply(s, Spawn(1));
    assert In(s, c, d, m, Scene(NEW, NEW, multiset{1, 2}, Idle, Idle, Lock(0, []))) == Apply(Apply(s, Spawn(1)), Spawn(2));
  }

  /** Calling `lock` on a mutex it holds, task 1 panics at the failed swap: a legal run that does. */
  lemma RelockingPanics(s: System, c: CpuId, d: CpuId, m: LockId) returns (acts: seq<Action>)
    requires TwoCpus(s, c, d, m)
    ensures Legal(s, acts) && Exec(s, acts).panicked
  {
    acts := FirstTaskLocks(s, c, d, m);
    var w := Scene(RUNS.(guards := {m}), NEW, multiset{2}, Current(1), Idle, Lock(1, []));
    var w1 := w.(t1 := RUNS.(guards := {m}, phase := Cas(m)));
    Then(s, c, d, m, acts, w, LockCall(c, m), w1);
    acts := acts + [LockCall(c, m)];
    assert Enabled(In(s, c, d, m, w1), CasFail(c)) && Apply(In(s, c, d, m, w1), CasFail(c)).panicked;
    assert (acts + [CasFail(c)])[..|acts|] == acts;
    acts := acts + [CasFail(c)];
  }

  /** Task 2, on `d`, fails to take the lock. */
  lemma SecondTaskFails(s: System, c: CpuId, d: CpuId, m: LockId) returns (acts: seq<Action>)
    requires TwoCpus(s, c, d, m)
    ensures Shows(s, c, d, m, acts,
      Scene(RUNS.(guards := {m}), RUNS.(phase := Cas(m)), multiset{}, Current(1), Current(2), Lock(1, [])))
  {
    acts := FirstTaskLocks(s, c, d, m);
    var w := Scene(RUNS.(guards := {m}), NEW, multiset{2}, Current(1), Idle, Lock(1, []));
    var w1 := w.(ready := multiset{}, onD := Picked(2));
    Then(s, c, d, m, acts, w, Pick(d, 2), w1);
    var w2 := w1.(t2 := RUNS, onD := Current(2));
    Then(s, c, d, m, acts + [Pick(d, 2)], w1, InitCurrent(d), w2);
    var w3 := w2.(t2 := RUNS.(phase := Cas(m)));
    Then(s, c, d, m, acts + [Pick(d, 2)] + [InitCurrent(d)], w2, LockCall(d, m), w3);
    acts := acts + [Pick(d, 2)] + [InitCurrent(d)] + [LockCall(d, m)];
  }

  /** It sees the lock held, and is about to register. */
  lemma SecondTaskSeesLockHeld(s: System, c: CpuId, d: CpuId, m: LockId) returns (acts: seq<Action>)
    requires TwoCpus(s, c, d, m)
    ensures Shows(s, c, d, m, acts,
      Scene(RUNS.(guards := {m}), RUNS.(phase := Register(m)), multiset{}, Current(1), Current(2), Lock(1, [])))
  {
    acts := SecondTaskFails(s, c, d, m);
    var w := Scene(RUNS.(guards := {m}), RUNS.(phase := Cas(m)), multiset{}, Current(1), Current(2), Lock(1, []));
    var w1 := w.(t2 := RUNS.(phase := Check(m)));
    Then(s, c, d, m, acts, w, CasFail(d), w1);
    var w2 := w1.(t2 := RUNS.(phase := Register(m)));
    Then(s, c, d, m, acts + [CasFail(d)], w1, TestOwner(d), w2);
    acts := acts + [CasFail(d)] + [TestOwner(d)];
  }

  /** Task 1 unlocks and notifies an empty wait list. */
  lemma NotifiesNobody(s: System, c: CpuId, d: CpuId, m: LockId) returns (acts: seq<Action>)
    requires TwoCpus(s, c, d, m)
    ensures Shows(s, c, d, m, acts, Scene(RUNS, RUNS.(phase := Register(m)), multiset{}, Current(1), Current(2), Lock(0, [])))
  {
    acts := SecondTaskSeesLockHeld(s, c, d, m);
    var w := Scene(RUNS.(guards := {m}), RUNS.(phase := Register(m)), multiset{}, Current(1), Current(2), Lock(1, []));
    var w1 := w.(t1 := RUNS.(phase := Notify(m)), lock := Lock(0, []));
    assert {m} - {m} == {};
    Then(s, c, d, m, acts, w, Unlock(c, m), w1);
    var w2 := w1.(t1 := RUNS);
    Then(s, c, d, m, acts + [Unlock(c, m)], w1, NotifyOne(c), w2);
    acts := acts + [Unlock(c, m)] + [NotifyOne(c)];
  }

  /** Task 2 registers. */
  lemma WaiterRegisters(s: System, c: CpuId, d: CpuId, m: LockId) returns (acts: seq<Action>)
    requires TwoCpus(s, c, d, m)
    ensures Shows(s, c, d, m, acts, Scene(RUNS, Task(Blocking, Parked(m), {}, 1), multiset{}, Current(1), Current(2), Lock(0, [2])))
  {
    acts := NotifiesNobody(s, c, d, m);
    var w := Scene(RUNS, RUNS.(phase := Register(m)), multiset{}, Current(1), Current(2), Lock(0, []));
    var w1 := w.(t2 := Task(Blocking, Parked(m), {}, 1), lock := Lock(0, [2]));
    assert w.lock.queue + [2] == [2];
    Then(s, c, d, m, acts, w, Enqueue(d), w1);
    acts := acts + [Enqueue(d)];
  }

  /** Task 2 goes to sleep. */
  lemma WaiterParks(s: System, c: CpuId, d: CpuId, m: LockId) returns (acts: seq<Action>)
    requires TwoCpus(s, c, d, m)
    ensures Shows(s, c, d, m, acts, Scene(RUNS, Task(Blocked, Parked(m), {}, 1), multiset{}, Current(1), Idle, Lock(0, [2])))
  {
    acts := WaiterRegisters(s, c, d, m);
    var w := Scene(RUNS, Task(Blocking, Parked(m), {}, 1), multiset{}, Current(1), Current(2), Lock(0, [2]));
    Then(s, c, d, m, acts, w, PendingMatch(d), w.(t2 := Task(Blocked, Parked(m), {}, 1), onD := Idle));
    acts := acts + [PendingMatch(d)];
  }

  /** Task 1 exits: the mutex is free and its waiter sleeps. */
  lemma WaiterSleeps(s: System, c: CpuId, d: CpuId, m: LockId) returns (acts: seq<Action>)
    requires TwoCpus(s, c, d, m)
    ensures Shows(s, c, d, m, acts,
      Scene(Task(Exited, Finished, {}, 0), Task(Blocked, Parked(m), {}, 1), multiset{}, Idle, Idle, Lock(0, [2])))
  {
    acts := WaiterParks(s, c, d, m);
    var w := Scene(RUNS, Task(Blocked, Parked(m), {}, 1), multiset{}, Current(1), Idle, Lock(0, [2]));
    Then(s, c, d, m, acts, w, Finish(c), w.(t1 := Task(Exited, Finished, {}, 0), onC := Idle));
    acts := acts + [Finish(c)];
  }

  /** A state in which the mutex is free, task 2 sleeps on it, and only a new task could do anything at all. */
  lemma WaiterSleepsForever(s: System, c: CpuId, d: CpuId, m: LockId) returns (acts: seq<Action>)
    requires TwoCpus(s, c, d, m)
    ensures Legal(s, acts) && Lost(Exec(s, acts), m, 2) && BetweenPolls(Exec(s, acts))
    ensures Exec(s, acts).locks[m].queue == [2] && Exec(s, acts).ready == multiset{}
    ensures forall a | Enabled(Exec(s, acts), a) :: a.Spawn?
  {
    acts := WaiterSleeps(s, c, d, m);
  }

  /** The mutex loses no wakeup exactly on a machine with at most one CPU. */
  lemma NoLostWakeupIffOneCpu(s0: System, m: LockId)
    requires Init(s0) && m in s0.locks
    ensures (forall s | Reachable(s0, s) :: NoLostWakeup(s)) <==> OneCpu(s0)
  {
    if OneCpu(s0) {
      forall s | Reachable(s0, s) ensures NoLostWakeup(s) { OneCpuLosesNoWakeup(s0, s); }
    } else {
      var c, d :| c in s0.cpus && d in s0.cpus && c != d;
      var acts := WaiterSleepsForever(s0, c, d, m);
      var s := Exec(s0, acts);
      assert Reachable(s0, s);
      assert !WaiterNotified(s, m);
      assert !NoLostWakeup(s);
    }
  }
}
