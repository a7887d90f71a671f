/**
 The task layer, the waker, the wait list and the async mutex as one step system.

 A step is what the code does under one lock: a pop from the ready queue, a compare-and-swap of the
 owner word, a registration under the wait-list lock, the `Pending` match under the state lock, a pop
 and wake under both.  CPUs, tasks and mutexes are unbounded in number; a run is any interleaving.
 */
module TaskSystem {

  /** Task control block addresses; 0 is the null pointer and, in an owner word, "free". */
  type TaskId = nat
  type CpuId = nat
  type LockId = nat

  datatype TaskState = Running | Runable | Blocking | Waked | Blocked | Exited

  /** Where the task's own code stands. */
  datatype Phase =
    | Code                   // ordinary code
    | Cas(lock: LockId)      // about to compare-and-swap the owner word
    | Check(lock: LockId)    // the swap failed; about to evaluate !is_locked()
    | Register(lock: LockId) // the lock was seen held; about to enter the wait list
    | Parked(lock: LockId)   // the lock future returned Pending
    | Notify(lock: LockId)   // the owner word is 0 again; about to notify_one
    | Yielded                // returned Pending without waiting for anything
    | Finished               // returned Ready

  /** `refs` counts the strong references held by the task layer. */
  datatype Task = Task(state: TaskState, phase: Phase, guards: set<LockId>, refs: int)

  /** What one CPU holds: nothing, a task popped but not yet current, or the current task. */
  datatype Slot = Idle | Picked(task: TaskId) | Current(task: TaskId)

  datatype Lock = Lock(owner: TaskId, queue: seq<TaskId>)

  datatype System = System(
    tasks: map<TaskId, Task>,
    cpus: map<CpuId, Slot>,
    ready: multiset<TaskId>,
    locks: map<LockId, Lock>,
    panicked: bool)

  datatype Action =
    | Spawn(t: TaskId)
    | Pick(c: CpuId, t: TaskId)
    | InitCurrent(c: CpuId)
    | LockCall(c: CpuId, m: LockId)
    | TryLock(c: CpuId, m: LockId)
    | CasOk(c: CpuId)
    | CasFail(c: CpuId)
    | TestOwner(c: CpuId)
    | Enqueue(c: CpuId)
    | Unlock(c: CpuId, m: LockId)
    | NotifyOne(c: CpuId)
    | Yield(c: CpuId)
    | PendingMatch(c: CpuId)
    | Finish(c: CpuId)

  // ---------------------------------------------------------------- steps

  ghost predicate HasCurrent(s: System, c: CpuId) {
    c in s.cpus && s.cpus[c].Current? && s.cpus[c].task in s.tasks
  }

  ghost function Cur(s: System, c: CpuId): Task
    requires HasCurrent(s, c)
  {
    s.tasks[s.cpus[c].task]
  }

  ghost predicate InPhaseOn(s: System, c: CpuId)
    requires HasCurrent(s, c)
  {
    var p := Cur(s, c).phase;
    (p.Cas? || p.Check? || p.Register? || p.Notify?) && p.lock in s.locks
  }

  /** Which steps the code can take.  A task that returns Ready has dropped its guards (they are locals of its
      future).  Nothing runs after a panic. */
  ghost predicate Enabled(s: System, a: Action) {
    !s.panicked &&
    match a
    case Spawn(t) => t != 0 && t !in s.tasks
    case Pick(c, t) => c in s.cpus && s.cpus[c].Idle? && t in s.ready
    case InitCurrent(c) => c in s.cpus && s.cpus[c].Picked? && s.cpus[c].task in s.tasks
    case LockCall(c, m) => HasCurrent(s, c) && Cur(s, c).phase.Code? && m in s.locks
    case TryLock(c, m) => HasCurrent(s, c) && Cur(s, c).phase.Code? && m in s.locks
    case CasOk(c) => HasCurrent(s, c) && InPhaseOn(s, c) && Cur(s, c).phase.Cas? && s.locks[Cur(s, c).phase.lock].owner == 0
    case CasFail(c) => HasCurrent(s, c) && InPhaseOn(s, c) && Cur(s, c).phase.Cas?
    case TestOwner(c) => HasCurrent(s, c) && InPhaseOn(s, c) && Cur(s, c).phase.Check?
    case Enqueue(c) => HasCurrent(s, c) && InPhaseOn(s, c) && Cur(s, c).phase.Register?
    case Unlock(c, m) => HasCurrent(s, c) && Cur(s, c).phase.Code? && m in s.locks && m in Cur(s, c).guards
    case NotifyOne(c) => HasCurrent(s, c) && InPhaseOn(s, c) && Cur(s, c).phase.Notify?
    case Yield(c) => HasCurrent(s, c) && Cur(s, c).phase.Code?
    case PendingMatch(c) => HasCurrent(s, c) && (Cur(s, c).phase.Yielded? || Cur(s, c).phase.Parked?)
    case Finish(c) => HasCurrent(s, c) && Cur(s, c).phase.Code? && Cur(s, c).guards == {}
  }

  /** Where the next poll of the future starts. */
  function Resume(p: Phase): Phase {
    match p
    case Parked(m) => Cas(m)
    case Yielded => Code
    case _ => p
  }

  ghost function Panic(s: System): System {
    s.(panicked := true)
  }

  /** `wakeup_task`: the state match under the state lock. */
  ghost function Wake(s: System, t: TaskId): System {
    if t !in s.tasks then Panic(s) else
    match s.tasks[t].state
    case Running => s
    case Runable => s
    case Blocking => s.(tasks := s.tasks[t := s.tasks[t].(state := Waked)])
    case Blocked => s.(tasks := s.tasks[t := s.tasks[t].(state := Runable)], ready := s.ready + multiset{t})
    case Waked => Panic(s)
    case Exited => Panic(s)
  }

  /** The `Poll::Pending` arm of `run_task`. */
  ghost function Pend(s: System, c: CpuId): System
    requires HasCurrent(s, c)
  {
    var t := s.cpus[c].task;
    var task := s.tasks[t];
    match task.state
    case Running =>
      // clone for the ready queue, then drop of the CPU's own reference
      s.(tasks := s.tasks[t := task.(state := Runable, refs := task.refs + 1 - 1)],
         ready := s.ready + multiset{t},
         cpus := s.cpus[c := Idle])
    case Blocking =>
      s.(tasks := s.tasks[t := task.(state := Blocked)], cpus := s.cpus[c := Idle])
    case Waked =>
      s.(tasks := s.tasks[t := task.(state := Running, phase := Resume(task.phase))])
    case Runable => Panic(s)
    case Blocked => Panic(s)
    case Exited => Panic(s)
  }

  ghost function Apply(s: System, a: Action): System
    requires Enabled(s, a)
  {
    match a
    case Spawn(t) =>
      s.(tasks := s.tasks[t := Task(Runable, Code, {}, 1)], ready := s.ready + multiset{t})
    case Pick(c, t) =>
      s.(ready := s.ready - multiset{t}, cpus := s.cpus[c := Picked(t)])
    case InitCurrent(c) =>
      var t := s.cpus[c].task;
      s.(tasks := s.tasks[t := s.tasks[t].(state := Running, phase := Resume(s.tasks[t].phase))],
         cpus := s.cpus[c := Current(t)])
    case LockCall(c, m) => SetPhase(s, c, Cas(m))
    case TryLock(c, m) => if s.locks[m].owner == 0 then Acquire(s, c, m) else s
    case CasOk(c) => Acquire(s, c, Cur(s, c).phase.lock)
    case CasFail(c) =>
      var m := Cur(s, c).phase.lock;
      // a weak swap may also fail with the word 0
      if s.locks[m].owner == s.cpus[c].task then Panic(s) else SetPhase(s, c, Check(m))
    case TestOwner(c) =>
      var m := Cur(s, c).phase.lock;
      SetPhase(s, c, if s.locks[m].owner == 0 then Cas(m) else Register(m))
    case Enqueue(c) =>
      var t := s.cpus[c].task;
      var m := s.tasks[t].phase.lock;
      s.(tasks := s.tasks[t := s.tasks[t].(state := Blocking, phase := Parked(m))],
         locks := s.locks[m := s.locks[m].(queue := s.locks[m].queue + [t])])
    case Unlock(c, m) =>
      var t := s.cpus[c].task;
      if s.locks[m].owner != t then Panic(s)
      else s.(tasks := s.tasks[t := s.tasks[t].(guards := s.tasks[t].guards - {m}, phase := Notify(m))],
              locks := s.locks[m := s.locks[m].(owner := 0)])
    case NotifyOne(c) =>
      var m := Cur(s, c).phase.lock;
      var s1 := SetPhase(s, c, Code);
      var q := s.locks[m].queue;
      if q == [] then s1
      else Wake(s1.(locks := s.locks[m := s.locks[m].(queue := q[1..])]), q[0])
    case Yield(c) => SetPhase(s, c, Yielded)
    case PendingMatch(c) => Pend(s, c)
    case Finish(c) =>
      var t := s.cpus[c].task;
      s.(tasks := s.tasks[t := s.tasks[t].(state := Exited, phase := Finished, refs := s.tasks[t].refs - 1)],
         cpus := s.cpus[c := Idle])
  }

  ghost function SetPhase(s: System, c: CpuId, p: Phase): System
    requires HasCurrent(s, c)
  {
    var t := s.cpus[c].task;
    s.(tasks := s.tasks[t := s.tasks[t].(phase := p)])
  }

  /** A successful swap 0 -> current task makes a guard. */
  ghost function Acquire(s: System, c: CpuId, m: LockId): System
    requires HasCurrent(s, c) && m in s.locks
  {
    var t := s.cpus[c].task;
    s.(tasks := s.tasks[t := s.tasks[t].(phase := Code, guards := s.tasks[t].guards + {m})],
       locks := s.locks[m := s.locks[m].(owner := t)])
  }

  // ---------------------------------------------------------------- runs

  ghost predicate Init(s: System) {
    && s.tasks == map[] && s.ready == multiset{} && !s.panicked
    && (forall c | c in s.cpus :: s.cpus[c] == Idle)
    && (forall m | m in s.locks :: s.locks[m] == Lock(0, []))
  }

  /** The actions can be taken one after the other from `s`. */
  ghost predicate Legal(s: System, acts: seq<Action>)
    decreases |acts|, 0
  {
    acts == [] ||
    (Legal(s, acts[..|acts| - 1]) && Enabled(Exec(s, acts[..|acts| - 1]), acts[|acts| - 1]))
  }

  ghost function Exec(s: System, acts: seq<Action>): System
    requires Legal(s, acts)
    decreases |acts|, 1
  {
    if acts == [] then s else Apply(Exec(s, acts[..|acts| - 1]), acts[|acts| - 1])
  }

  // ---------------------------------------------------------------- the invariant

  /** The one place a task is in. */
  datatype Place = Queued | OnCpu(cpu: CpuId) | Asleep | Gone

  predicate Dispatchable(p: Phase) {
    p.Code? || p.Yielded? || p.Parked?
  }

  predicate Names(p: Phase) {
    !(p.Code? || p.Yielded? || p.Finished?)
  }

  /** Task `t` is where `home` says, its state fits that place, and the layer owns one reference to it. */
  ghost predicate TaskOk(s: System, home: map<TaskId, Place>, t: TaskId)
    requires t in s.tasks
  {
    var k := s.tasks[t];
    && t != 0 && t in home
    && s.ready[t] == (if home[t] == Queued then 1 else 0)
    && k.refs == (if home[t] == Gone then 0 else 1)
    && (Names(k.phase) ==> k.phase.lock in s.locks && (k.phase.Cas? || k.phase.lock !in k.guards))
    && (match home[t]
        case Queued => k.state == Runable && Dispatchable(k.phase)
        case OnCpu(c) =>
          && c in s.cpus
          && (|| (s.cpus[c] == Picked(t) && k.state == Runable && Dispatchable(k.phase))
              || (s.cpus[c] == Current(t) && k.state in {Running, Blocking, Waked} && k.phase != Finished
                  && (k.phase.Parked? <==> k.state != Running)))
        case Asleep => k.state == Blocked && k.phase.Parked?
        case Gone => k.state == Exited && k.phase == Finished && k.guards == {})
  }

  /** A busy CPU is the place of the task in its slot. */
  ghost predicate CpuOk(s: System, home: map<TaskId, Place>, c: CpuId)
    requires c in s.cpus
  {
    s.cpus[c].Idle? || (s.cpus[c].task in s.tasks && s.cpus[c].task in home && home[s.cpus[c].task] == OnCpu(c))
  }

  ghost predicate ReadyOk(s: System, t: TaskId) {
    t in s.ready ==> t in s.tasks
  }

  ghost predicate Waiting(s: System, t: TaskId, m: LockId) {
    t in s.tasks && s.tasks[t].phase == Parked(m) && s.tasks[t].state in {Blocking, Blocked}
  }

  /** `t` is in the wait list of `m` once if it waits for `m`, and not at all otherwise. */
  ghost predicate NodeOk(s: System, m: LockId, t: TaskId)
    requires m in s.locks
  {
    multiset(s.locks[m].queue)[t] == if Waiting(s, t, m) then 1 else 0
  }

  /** The owner word of `m` is `t` exactly when `t` has a guard of `m`. */
  ghost predicate GuardOk(s: System, m: LockId, t: TaskId) {
    t in s.tasks ==> (m in s.tasks[t].guards <==> m in s.locks && s.locks[m].owner == t)
  }

  ghost predicate OwnerOk(s: System, m: LockId)
    requires m in s.locks
  {
    s.locks[m].owner == 0 || s.locks[m].owner in s.tasks
  }

  ghost predicate InvAt(s: System, home: map<TaskId, Place>) {
    && (forall t {:trigger TaskOk(s, home, t)} :: t in s.tasks ==> TaskOk(s, home, t))
    && (forall c {:trigger CpuOk(s, home, c)} :: c in s.cpus ==> CpuOk(s, home, c))
    && (forall t {:trigger ReadyOk(s, t)} :: ReadyOk(s, t))
    && (forall m, t {:trigger NodeOk(s, m, t)} :: m in s.locks ==> NodeOk(s, m, t))
    && (forall m, t {:trigger GuardOk(s, m, t)} :: GuardOk(s, m, t))
    && (forall m {:trigger OwnerOk(s, m)} :: m in s.locks ==> OwnerOk(s, m))
  }

  /** How a step moves tasks between places. */
  ghost function Move(s: System, home: map<TaskId, Place>, a: Action): map<TaskId, Place>
    requires Enabled(s, a)
  {
    match a
    case Spawn(t) => home[t := Queued]
    case Pick(c, t) => home[t := OnCpu(c)]
    case NotifyOne(c) =>
      var q := s.locks[Cur(s, c).phase.lock].queue;
      if q != [] && q[0] in s.tasks && s.tasks[q[0]].state == Blocked then home[q[0] := Queued] else home
    case PendingMatch(c) =>
      if Cur(s, c).state == Running then home[s.cpus[c].task := Queued]
      else if Cur(s, c).state == Blocking then home[s.cpus[c].task := Asleep]
      else home
    case Finish(c) => home[s.cpus[c].task := Gone]
    case _ => home
  }

  /** What the invariant says about the task in the slot of the acting CPU. */
  lemma ActorFacts(s: System, home: map<TaskId, Place>, c: CpuId)
    requires InvAt(s, home) && c in s.cpus && !s.cpus[c].Idle?
    ensures s.cpus[c].task in s.tasks && CpuOk(s, home, c) && TaskOk(s, home, s.cpus[c].task)
  {
    assert CpuOk(s, home, c);
  }

  /** What the invariant says about the task at the head of a wait list. */
  lemma HeadFacts(s: System, home: map<TaskId, Place>, m: LockId)
    requires InvAt(s, home) && m in s.locks && s.locks[m].queue != []
    ensures Waiting(s, s.locks[m].queue[0], m) && TaskOk(s, home, s.locks[m].queue[0])
  {
    var u := s.locks[m].queue[0];
    assert u in multiset(s.locks[m].queue);
    assert NodeOk(s, m, u);
  }

  lemma UseFacts(s: System, home: map<TaskId, Place>, a: Action)
    requires InvAt(s, home) && Enabled(s, a)
    ensures !a.Spawn? && !a.Pick? ==> s.cpus[a.c].task in s.tasks && CpuOk(s, home, a.c) && TaskOk(s, home, s.cpus[a.c].task)
    ensures a.NotifyOne? ==>
      var q := s.locks[Cur(s, a.c).phase.lock].queue;
      q != [] ==> Waiting(s, q[0], Cur(s, a.c).phase.lock) && TaskOk(s, home, q[0])
    ensures a.Pick? ==> a.t in s.tasks && TaskOk(s, home, a.t)
    ensures a.Unlock? ==> GuardOk(s, a.m, s.cpus[a.c].task)
    ensures a.CasFail? ==> GuardOk(s, Cur(s, a.c).phase.lock, s.cpus[a.c].task)
  {
    if a.Pick? { assert ReadyOk(s, a.t); }
    else if !a.Spawn? { ActorFacts(s, home, a.c); }
    if a.NotifyOne? && s.locks[Cur(s, a.c).phase.lock].queue != [] { HeadFacts(s, home, Cur(s, a.c).phase.lock); }
  }

  /** The swap of a task that holds the mutex it is about to lock: the code asserts that it does not. */
  ghost predicate Relocks(s: System, a: Action)
    requires Enabled(s, a)
  {
    a.CasFail? && Cur(s, a.c).phase.lock in Cur(s, a.c).guards
  }

  /** A step panics if and only if it is the failed swap of a task that holds that mutex.  No panic arm of
      `run_task` or `wakeup_task` and no other assert is ever reached. */
  lemma StepPanicsIff(s: System, home: map<TaskId, Place>, a: Action)
    requires InvAt(s, home) && Enabled(s, a)
    ensures Apply(s, a).panicked <==> Relocks(s, a)
  {
    UseFacts(s, home, a);
  }

  /** The steps that move no task. */
  predicate Local(a: Action) {
    a.LockCall? || a.TryLock? || a.CasOk? || a.CasFail? || a.TestOwner? || a.Enqueue? || a.Unlock? || a.Yield?
  }

  lemma LocalStepKeepsTask(s: System, home: map<TaskId, Place>, a: Action, t: TaskId)
    requires InvAt(s, home) && Enabled(s, a) && Local(a) && t in Apply(s, a).tasks
    ensures TaskOk(Apply(s, a), Move(s, home, a), t)
  {
    UseFacts(s, home, a);
    assert TaskOk(s, home, t);
  }

  /** The steps that bring a task to a CPU. */
  predicate Arrival(a: Action) {
    a.Spawn? || a.Pick? || a.InitCurrent?
  }

  /** The steps after a poll that may take the task off its CPU. */
  predicate Departure(a: Action) {
    a.PendingMatch? || a.Finish?
  }

  lemma ArrivalKeepsTask(s: System, home: map<TaskId, Place>, a: Action, t: TaskId)
    requires InvAt(s, home) && Enabled(s, a) && Arrival(a) && t in Apply(s, a).tasks
    ensures TaskOk(Apply(s, a), Move(s, home, a), t)
  {
    UseFacts(s, home, a);
    assert t in s.tasks ==> TaskOk(s, home, t);
    assert ReadyOk(s, t);
  }

  lemma DepartureKeepsTask(s: System, home: map<TaskId, Place>, a: Action, t: TaskId)
    requires InvAt(s, home) && Enabled(s, a) && Departure(a) && t in Apply(s, a).tasks
    ensures TaskOk(Apply(s, a), Move(s, home, a), t)
  {
    UseFacts(s, home, a);
    assert TaskOk(s, home, t);
  }

  lemma NotifyKeepsTask(s: System, home: map<TaskId, Place>, c: CpuId, t: TaskId)
    requires InvAt(s, home) && Enabled(s, NotifyOne(c)) && t in Apply(s, NotifyOne(c)).tasks
    ensures TaskOk(Apply(s, NotifyOne(c)), Move(s, home, NotifyOne(c)), t)
  {
    UseFacts(s, home, NotifyOne(c));
    assert TaskOk(s, home, t);
  }

  lemma LocalStepKeepsCpu(s: System, home: map<TaskId, Place>, a: Action, c: CpuId)
    requires InvAt(s, home) && Enabled(s, a) && Local(a) && c in Apply(s, a).cpus
    ensures CpuOk(Apply(s, a), Move(s, home, a), c)
  {
    UseFacts(s, home, a);
    assert CpuOk(s, home, c);
  }

  lemma ArrivalKeepsCpu(s: System, home: map<TaskId, Place>, a: Action, c: CpuId)
    requires InvAt(s, home) && Enabled(s, a) && Arrival(a) && c in Apply(s, a).cpus
    ensures CpuOk(Apply(s, a), Move(s, home, a), c)
  {
    UseFacts(s, home, a);
    assert CpuOk(s, home, c);
  }

  lemma DepartureKeepsCpu(s: System, home: map<TaskId, Place>, a: Action, c: CpuId)
    requires InvAt(s, home) && Enabled(s, a) && Departure(a) && c in Apply(s, a).cpus
    ensures CpuOk(Apply(s, a), Move(s, home, a), c)
  {
    UseFacts(s, home, a);
    assert CpuOk(s, home, c);
  }

  lemma NotifyKeepsCpu(s: System, home: map<TaskId, Place>, a: Action, c: CpuId)
    requires InvAt(s, home) && Enabled(s, a) && a.NotifyOne? && c in Apply(s, a).cpus
    ensures CpuOk(Apply(s, a), Move(s, home, a), c)
  {
    UseFacts(s, home, a);
    assert CpuOk(s, home, c);
  }

  lemma StepKeepsReady(s: System, home: map<TaskId, Place>, a: Action, t: TaskId)
    requires InvAt(s, home) && Enabled(s, a)
    ensures ReadyOk(Apply(s, a), t)
  {
    UseFacts(s, home, a);
    assert ReadyOk(s, t);
  }

  lemma LocalStepKeepsNode(s: System, home: map<TaskId, Place>, a: Action, m: LockId, t: TaskId)
    requires InvAt(s, home) && Enabled(s, a) && Local(a) && m in Apply(s, a).locks
    ensures NodeOk(Apply(s, a), m, t)
  {
    UseFacts(s, home, a);
    assert NodeOk(s, m, t);
  }

  lemma ArrivalKeepsNode(s: System, home: map<TaskId, Place>, a: Action, m: LockId, t: TaskId)
    requires InvAt(s, home) && Enabled(s, a) && Arrival(a) && m in Apply(s, a).locks
    ensures NodeOk(Apply(s, a), m, t)
  {
    UseFacts(s, home, a);
    assert NodeOk(s, m, t);
  }

  lemma DepartureKeepsNode(s: System, home: map<TaskId, Place>, a: Action, m: LockId, t: TaskId)
    requires InvAt(s, home) && Enabled(s, a) && Departure(a) && m in Apply(s, a).locks
    ensures NodeOk(Apply(s, a), m, t)
  {
    UseFacts(s, home, a);
    assert NodeOk(s, m, t);
  }

  lemma CountAfterPop(q: seq<TaskId>, t: TaskId)
    requires q != []
    ensures multiset(q)[t] == multiset(q[1..])[t] + if t == q[0] then 1 else 0
  {
    assert q == [q[0]] + q[1..];
  }

  /** Who waits after the front waiter `u` of `n` was woken: everybody but `u`. */
  lemma WaitingAfterNotify(s: System, home: map<TaskId, Place>, c: CpuId, m: LockId, t: TaskId)
    requires InvAt(s, home) && Enabled(s, NotifyOne(c))
    ensures var q := s.locks[Cur(s, c).phase.lock].queue;
      Waiting(Apply(s, NotifyOne(c)), t, m) <==> Waiting(s, t, m) && !(q != [] && t == q[0])
  {
    UseFacts(s, home, NotifyOne(c));
  }

  lemma NotifyKeepsNode(s: System, home: map<TaskId, Place>, c: CpuId, m: LockId, t: TaskId)
    requires InvAt(s, home) && Enabled(s, NotifyOne(c)) && m in Apply(s, NotifyOne(c)).locks
    ensures NodeOk(Apply(s, NotifyOne(c)), m, t)
  {
    WaitingAfterNotify(s, home, c, m, t);
    assert m in s.locks && NodeOk(s, m, t);
    var n := Cur(s, c).phase.lock;
    var q := s.locks[n].queue;
    if q != [] {
      HeadFacts(s, home, n);
      CountAfterPop(q, t);
    }
  }

  lemma LocalStepKeepsGuard(s: System, home: map<TaskId, Place>, a: Action, m: LockId, t: TaskId)
    requires InvAt(s, home) && Enabled(s, a) && Local(a)
    ensures GuardOk(Apply(s, a), m, t)
    ensures m in Apply(s, a).locks ==> OwnerOk(Apply(s, a), m)
  {
    UseFacts(s, home, a);
    assert t in s.tasks ==> TaskOk(s, home, t);
    assert GuardOk(s, m, t);
    assert m in s.locks ==> OwnerOk(s, m);
  }

  lemma MoveStepKeepsGuard(s: System, home: map<TaskId, Place>, a: Action, m: LockId, t: TaskId)
    requires InvAt(s, home) && Enabled(s, a) && (Arrival(a) || Departure(a))
    ensures GuardOk(Apply(s, a), m, t)
    ensures m in Apply(s, a).locks ==> OwnerOk(Apply(s, a), m)
  {
    UseFacts(s, home, a);
    assert GuardOk(s, m, t);
    assert m in s.locks ==> OwnerOk(s, m);
  }

  lemma NotifyKeepsGuard(s: System, home: map<TaskId, Place>, a: Action, m: LockId, t: TaskId)
    requires InvAt(s, home) && Enabled(s, a) && a.NotifyOne?
    ensures GuardOk(Apply(s, a), m, t)
    ensures m in Apply(s, a).locks ==> OwnerOk(Apply(s, a), m)
  {
    UseFacts(s, home, a);
    assert GuardOk(s, m, t);
    assert m in s.locks ==> OwnerOk(s, m);
  }

  lemma StepKeepsTask(s: System, home: map<TaskId, Place>, a: Action, t: TaskId)
    requires InvAt(s, home) && Enabled(s, a) && t in Apply(s, a).tasks
    ensures TaskOk(Apply(s, a), Move(s, home, a), t)
  {
    if Local(a) {
      LocalStepKeepsTask(s, home, a, t);
    } else if Arrival(a) {
      ArrivalKeepsTask(s, home, a, t);
    } else if Departure(a) {
      DepartureKeepsTask(s, home, a, t);
    } else {
      NotifyKeepsTask(s, home, a.c, t);
    }
  }

  lemma StepKeepsCpu(s: System, home: map<TaskId, Place>, a: Action, c: CpuId)
    requires InvAt(s, home) && Enabled(s, a) && c in Apply(s, a).cpus
    ensures CpuOk(Apply(s, a), Move(s, home, a), c)
  {
    if Local(a) {
      LocalStepKeepsCpu(s, home, a, c);
    } else if Arrival(a) {
      ArrivalKeepsCpu(s, home, a, c);
    } else if Departure(a) {
      DepartureKeepsCpu(s, home, a, c);
    } else {
      NotifyKeepsCpu(s, home, a, c);
    }
  }

  lemma StepKeepsNode(s: System, home: map<TaskId, Place>, a: Action, m: LockId, t: TaskId)
    requires InvAt(s, home) && Enabled(s, a) && m in Apply(s, a).locks
    ensures NodeOk(Apply(s, a), m, t)
  {
    if Local(a) {
      LocalStepKeepsNode(s, home, a, m, t);
    } else if Arrival(a) {
      ArrivalKeepsNode(s, home, a, m, t);
    } else if Departure(a) {
      DepartureKeepsNode(s, home, a, m, t);
    } else {
      NotifyKeepsNode(s, home, a.c, m, t);
    }
  }

  lemma StepKeepsGuard(s: System, home: map<TaskId, Place>, a: Action, m: LockId, t: TaskId)
    requires InvAt(s, home) && Enabled(s, a)
    ensures GuardOk(Apply(s, a), m, t)
    ensures m in Apply(s, a).locks ==> OwnerOk(Apply(s, a), m)
  {
    if Local(a) {
      LocalStepKeepsGuard(s, home, a, m, t);
    } else if a.NotifyOne? {
      NotifyKeepsGuard(s, home, a, m, t);
    } else {
      MoveStepKeepsGuard(s, home, a, m, t);
    }
  }

  /** Every step from a good state leads to a good state. */
  lemma StepKeepsInv(s: System, home: map<TaskId, Place>, a: Action)
    requires InvAt(s, home) && Enabled(s, a)
    ensures InvAt(Apply(s, a), Move(s, home, a))
  {
    var s1, h1 := Apply(s, a), Move(s, home, a);
    forall t | t in s1.tasks ensures TaskOk(s1, h1, t) { StepKeepsTask(s, home, a, t); }
    forall c | c in s1.cpus ensures CpuOk(s1, h1, c) { StepKeepsCpu(s, home, a, c); }
    forall t ensures ReadyOk(s1, t) { StepKeepsReady(s, home, a, t); }
    forall m, t | m in s1.locks ensures NodeOk(s1, m, t) { StepKeepsNode(s, home, a, m, t); }
    forall m, t ensures GuardOk(s1, m, t) { StepKeepsGuard(s, home, a, m, t); }
    forall m | m in s1.locks ensures OwnerOk(s1, m) { StepKeepsGuard(s, home, a, m, 0); }
  }

  lemma InitHolds(s: System)
    requires Init(s)
    ensures InvAt(s, map[])
  {
  }

  ghost predicate Inv(s: System) {
    exists home :: InvAt(s, home)
  }

  lemma {:induction false} RunKeepsInv(s: System, acts: seq<Action>)
    requires Init(s) && Legal(s, acts)
    ensures Inv(Exec(s, acts))
    decreases |acts|
  {
    if acts == [] {
      InitHolds(s);
    } else {
      var before := acts[..|acts| - 1];
      RunKeepsInv(s, before);
      var home: map<TaskId, Place> :| InvAt(Exec(s, before), home);
      StepKeepsInv(Exec(s, before), home, acts[|acts| - 1]);
    }
  }

  // ---------------------------------------------------------------- what holds in every run

  /** Some run from the initial state `s0` leads to `s`. */
  ghost predicate Reachable(s0: System, s: System) {
    Init(s0) && exists acts :: Legal(s0, acts) && Exec(s0, acts) == s
  }

  lemma ReachableInv(s0: System, s: System)
    requires Reachable(s0, s)
    ensures Inv(s)
  {
    var acts :| Legal(s0, acts) && Exec(s0, acts) == s;
    RunKeepsInv(s0, acts);
  }

  ghost function Holders(s: System, t: TaskId): set<CpuId> {
    set c | c in s.cpus && !s.cpus[c].Idle? && s.cpus[c].task == t
  }

  /** How many places `t` is in: ready-queue entries, CPUs holding it, and being parked. */
  ghost function PlaceCount(s: System, t: TaskId): nat
    requires t in s.tasks
  {
    s.ready[t] + |Holders(s, t)| + if s.tasks[t].state == Blocked then 1 else 0
  }

  ghost predicate PlaceFitsState(s: System, t: TaskId)
    requires t in s.tasks
  {
    match s.tasks[t].state
    case Runable => t in s.ready || exists c :: c in s.cpus && s.cpus[c] == Picked(t)
    case Running => exists c :: c in s.cpus && s.cpus[c] == Current(t)
    case Blocking => exists c :: c in s.cpus && s.cpus[c] == Current(t)
    case Waked => exists c :: c in s.cpus && s.cpus[c] == Current(t)
    case Blocked => t !in s.ready && Holders(s, t) == {}
    case Exited => t !in s.ready && Holders(s, t) == {}
  }

  /** Every live task is in exactly one place, its state fits that place, and the task layer owns
      exactly one reference to it; an exited task is nowhere and its reference has been dropped. */
  lemma ExactlyOnePlace(s0: System, s: System, t: TaskId)
    requires Reachable(s0, s) && t in s.tasks
    ensures var live := if s.tasks[t].state == Exited then 0 else 1;
      PlaceCount(s, t) == live && s.tasks[t].refs == live && PlaceFitsState(s, t)
  {
    ReachableInv(s0, s);
    var home: map<TaskId, Place> :| InvAt(s, home);
    assert TaskOk(s, home, t);
    forall c | c in Holders(s, t) ensures home[t] == OnCpu(c) {
      assert CpuOk(s, home, c);
    }
    if home[t].OnCpu? {
      assert Holders(s, t) == {home[t].cpu};
    } else {
      assert Holders(s, t) == {};
    }
  }

  /** At most one live guard per mutex, and it belongs to the task in the owner word. */
  lemma MutualExclusion(s0: System, s: System, m: LockId, t: TaskId, u: TaskId)
    requires Reachable(s0, s) && t in s.tasks && u in s.tasks && m in s.tasks[t].guards && m in s.tasks[u].guards
    ensures t == u && m in s.locks && s.locks[m].owner == t
  {
    ReachableInv(s0, s);
    var home: map<TaskId, Place> :| InvAt(s, home);
    assert GuardOk(s, m, t) && GuardOk(s, m, u);
  }

  /** The wait lists together hold one node of a task if it is Blocking or Blocked, none otherwise. */
  lemma OneNodeIffWaiting(s0: System, s: System, t: TaskId)
    requires Reachable(s0, s) && t in s.tasks
    ensures s.tasks[t].state in {Blocking, Blocked} <==>
      exists m :: m in s.locks && multiset(s.locks[m].queue)[t] == 1
                  && forall n | n in s.locks && n != m :: t !in s.locks[n].queue
    ensures s.tasks[t].state !in {Blocking, Blocked} ==> forall m | m in s.locks :: t !in s.locks[m].queue
  {
    ReachableInv(s0, s);
    var home: map<TaskId, Place> :| InvAt(s, home);
    assert TaskOk(s, home, t);
    forall m | m in s.locks ensures t in s.locks[m].queue <==> Waiting(s, t, m) {
      assert NodeOk(s, m, t);
    }
    if s.tasks[t].state in {Blocking, Blocked} {
      var m := s.tasks[t].phase.lock;
      assert NodeOk(s, m, t);
    }
  }

  /** A run ends in a panic if and only if its last step is the failed swap of a task that holds that mutex. */
  lemma RunPanicsIff(s: System, acts: seq<Action>)
    requires Init(s) && Legal(s, acts)
    ensures Exec(s, acts).panicked <==>
      acts != [] && Relocks(Exec(s, acts[..|acts| - 1]), acts[|acts| - 1])
  {
    if acts != [] {
      var before := acts[..|acts| - 1];
      RunKeepsInv(s, before);
      var home: map<TaskId, Place> :| InvAt(Exec(s, before), home);
      StepPanicsIff(Exec(s, before), home, acts[|acts| - 1]);
    }
  }

  /** Nobody calls `lock` on a mutex it holds. */
  ghost predicate Careful(s: System, acts: seq<Action>)
    requires Legal(s, acts)
    decreases |acts|
  {
    acts == [] ||
    (var (before, a) := (acts[..|acts| - 1], acts[|acts| - 1]);
     Careful(s, before) && (a.LockCall? ==> a.m !in Cur(Exec(s, before), a.c).guards))
  }

  /** A task about to swap does not hold the mutex. */
  ghost predicate NoRelock(s: System, t: TaskId) {
    t in s.tasks && s.tasks[t].phase.Cas? ==> s.tasks[t].phase.lock !in s.tasks[t].guards
  }

  lemma StepKeepsNoRelock(s: System, home: map<TaskId, Place>, a: Action, t: TaskId)
    requires InvAt(s, home) && Enabled(s, a) && (a.LockCall? ==> a.m !in Cur(s, a.c).guards) && NoRelock(s, t)
    ensures NoRelock(Apply(s, a), t)
  {
    UseFacts(s, home, a);
  }

  lemma {:induction false} CarefulNeverRelocks(s: System, acts: seq<Action>, t: TaskId)
    requires Init(s) && Legal(s, acts) && Careful(s, acts)
    ensures NoRelock(Exec(s, acts), t)
    decreases |acts|
  {
    if acts != [] {
      var before := acts[..|acts| - 1];
      CarefulNeverRelocks(s, before, t);
      RunKeepsInv(s, before);
      var home: map<TaskId, Place> :| InvAt(Exec(s, before), home);
      StepKeepsNoRelock(Exec(s, before), home, acts[|acts| - 1], t);
    }
  }

  /** So a run in which nobody locks a mutex it holds never panics. */
  lemma NoPanic(s: System, acts: seq<Action>)
    requires Init(s) && Legal(s, acts) && Careful(s, acts)
    ensures !Exec(s, acts).panicked
  {
    RunPanicsIff(s, acts);
    if acts != [] && acts[|acts| - 1].CasFail? {
      var before := Exec(s, acts[..|acts| - 1]);
      CarefulNeverRelocks(s, acts[..|acts| - 1], before.cpus[acts[|acts| - 1].c].task);
    }
  }
}
