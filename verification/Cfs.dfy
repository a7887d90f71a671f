/**
 The completely fair scheduler: virtual runtimes, the ready queue as an index by cached virtual runtime,
 and how far apart virtual runtimes can get.  Counters are unbounded integers.
 */
module Cfs {

  import opened Options

  type TaskId = nat
  type Key = (int, int)

  const NICE_TO_WEIGHT_POS: seq<int> :=
    [1024, 820, 655, 526, 423, 335, 272, 215, 172, 137, 110, 87, 70, 56, 45, 36, 29, 23, 18, 15]
  const NICE_TO_WEIGHT_NEG: seq<int> :=
    [1024, 1277, 1586, 1991, 2501, 3121, 3906, 4904, 6100, 7620, 9548, 11916, 14949, 18705, 23254,
     29154, 36291, 46273, 56483, 71755, 88761]

  predicate NiceInRange(nice: int) {
    -20 <= nice <= 19
  }

  function Weight(nice: int): (w: int)
    requires NiceInRange(nice)
    ensures 15 <= w <= 88761
  {
    if nice >= 0 then NICE_TO_WEIGHT_POS[nice] else NICE_TO_WEIGHT_NEG[-nice]
  }

  datatype Task = Task(init: int, delta: nat, nice: int, id: int)

  /** Ticks scaled by the weight of the nice value. */
  function Scaled(nice: int, delta: nat): (v: int)
    requires NiceInRange(nice)
    ensures v >= 0
  {
    if nice == 0 then delta else delta * 1024 / Weight(nice)
  }

  function Vruntime(t: Task): int
    requires NiceInRange(t.nice)
  {
    t.init + Scaled(t.nice, t.delta)
  }

  function KeyOf(t: Task): Key
    requires NiceInRange(t.nice)
  {
    (Vruntime(t), t.id)
  }

  predicate Before(a: Key, b: Key) {
    a.0 < b.0 || (a.0 == b.0 && a.1 <= b.1)
  }

  // ---------------------------------------------------------------- nice values

  /** A step of the nice value changes the weight by a factor between 1.2 and 1.28, so a higher one weighs less. */
  lemma WeightFalls(nice: int)
    requires -20 <= nice < 19
    ensures 120 * Weight(nice + 1) <= 100 * Weight(nice) <= 128 * Weight(nice + 1)
    ensures Weight(nice + 1) < Weight(nice)
    ensures Weight(0) == 1024 && Weight(19) == 15 && Weight(-20) == 88761
  {
  }

  lemma {:induction false} HigherWeighsLess(a: int, b: int)
    requires -20 <= a <= b <= 19
    ensures Weight(b) <= Weight(a) && (a < b ==> Weight(b) < Weight(a))
    decreases b - a
  {
    if a < b {
      HigherWeighsLess(a, b - 1);
      WeightFalls(b - 1);
    }
  }

  /** Virtual time passes in inverse proportion to the weight, and faster the higher the nice value. */
  lemma ScaledByWeight(a: int, b: int, delta: nat)
    requires -20 <= a <= b <= 19
    ensures Scaled(a, delta) == delta * 1024 / Weight(a)
    ensures Scaled(a, delta) <= Scaled(b, delta)
  {
    ScaledIsDivision(a, delta);
    ScaledIsDivision(b, delta);
    HigherWeighsLess(a, b);
    DivByLess(delta * 1024, Weight(b), Weight(a));
  }

  lemma DivByLess(x: nat, v: int, w: int)
    requires 0 < v <= w
    ensures x / w <= x / v
  {
    var q := x / w;
    assert q * w <= x;
    MulKeepsOrder(v, w, q);
    assert x < (x / v + 1) * v;
    MulCancel(q, x / v + 1, v);
  }

  lemma ScaledIsDivision(nice: int, delta: nat)
    requires NiceInRange(nice)
    ensures Scaled(nice, delta) == delta * 1024 / Weight(nice)
  {
  }

  // ---------------------------------------------------------------- the scheduler as a value

  /** `tasks` holds every task that was ever added; `queue` is the ordered map of the ready ones. */
  datatype Sched = Sched(tasks: map<TaskId, Task>, queue: map<Key, TaskId>, min: Option<int>, pool: int)

  const NEW := Sched(map[], map[], None, 0)

  /** Entry `k` of the ready queue is keyed by what its task's key is now. */
  ghost predicate EntryOk(s: Sched, k: Key)
    requires k in s.queue
  {
    s.queue[k] in s.tasks && NiceInRange(s.tasks[s.queue[k]].nice) && KeyOf(s.tasks[s.queue[k]]) == k
  }

  ghost predicate TaskOk(s: Sched, t: TaskId)
    requires t in s.tasks
  {
    NiceInRange(s.tasks[t].nice) && s.tasks[t].id < s.pool
  }

  ghost predicate IdsDiffer(s: Sched, t: TaskId, u: TaskId)
    requires t in s.tasks && u in s.tasks
  {
    t != u ==> s.tasks[t].id != s.tasks[u].id
  }

  ghost predicate IndexOk(s: Sched) {
    && (forall k {:trigger EntryOk(s, k)} :: k in s.queue ==> EntryOk(s, k))
    && (forall t {:trigger TaskOk(s, t)} :: t in s.tasks ==> TaskOk(s, t))
    && (forall t, u {:trigger IdsDiffer(s, t, u)} :: t in s.tasks && u in s.tasks ==> IdsDiffer(s, t, u))
  }

  ghost predicate Queued(s: Sched, t: TaskId) {
    exists k :: k in s.queue && s.queue[k] == t
  }

  lemma FirstExists(queue: map<Key, TaskId>)
    requires queue != map[]
    ensures exists k :: k in queue && forall j | j in queue :: Before(k, j)
    decreases |queue|
  {
    var k :| k in queue;
    var rest := queue - {k};
    assert queue.Keys == {k} + rest.Keys;
    if rest != map[] {
      FirstExists(rest);
      var j :| j in rest && forall i | i in rest :: Before(j, i);
      assert Before(j, k) || forall i | i in queue :: Before(k, i);
      assert Before(j, k) ==> forall i | i in queue :: Before(j, i);
    }
  }

  /** The smallest key of the ready queue. */
  ghost function FirstKey(queue: map<Key, TaskId>): (k: Key)
    requires queue != map[]
    ensures k in queue && forall j | j in queue :: Before(k, j)
  {
    FirstExists(queue);
    var k :| k in queue && forall j | j in queue :: Before(k, j);
    k
  }

  ghost function MinOf(queue: map<Key, TaskId>): Option<int> {
    if queue == map[] then None else Some(FirstKey(queue).0)
  }

  // ---------------------------------------------------------------- operations

  /** `add_task`: `task` is what the task's fields are on entry. */
  ghost function Add(s: Sched, t: TaskId, task: Task): Sched {
    var v := if s.min.None? then 0 else s.min.value;
    var queue := s.queue[(v, s.pool) := t];
    Sched(s.tasks[t := task.(init := v, id := s.pool)], queue, MinOf(queue), s.pool + 1)
  }

  ghost function Remove(s: Sched, t: TaskId): (r: (Sched, Option<TaskId>))
    requires t in s.tasks && NiceInRange(s.tasks[t].nice)
  {
    var k := KeyOf(s.tasks[t]);
    if k in s.queue then
      var queue := s.queue - {k};
      (s.(queue := queue, min := MinOf(queue)), Some(s.queue[k]))
    else (s, None)
  }

  ghost function Pick(s: Sched): (r: (Sched, Option<TaskId>)) {
    if s.queue == map[] then (s, None)
    else (s.(queue := s.queue - {FirstKey(s.queue)}), Some(s.queue[FirstKey(s.queue)]))
  }

  ghost function Put(s: Sched, t: TaskId): Sched
    requires t in s.tasks && NiceInRange(s.tasks[t].nice)
  {
    var task := s.tasks[t].(id := s.pool);
    s.(tasks := s.tasks[t := task], queue := s.queue[KeyOf(task) := t], pool := s.pool + 1)
  }

  ghost function Tick(s: Sched, t: TaskId): Sched
    requires t in s.tasks
  {
    s.(tasks := s.tasks[t := s.tasks[t].(delta := s.tasks[t].delta + 1)])
  }

  ghost function SetPriority(s: Sched, t: TaskId, nice: int): Sched
    requires t in s.tasks && NiceInRange(s.tasks[t].nice)
  {
    if NiceInRange(nice) then
      s.(tasks := s.tasks[t := s.tasks[t].(init := Vruntime(s.tasks[t]), delta := 0, nice := nice)])
    else s
  }

  // ---------------------------------------------------------------- the index stays in agreement

  lemma KeysBelowPool(s: Sched)
    requires IndexOk(s)
    ensures forall k | k in s.queue :: k.1 < s.pool
  {
    forall k | k in s.queue ensures k.1 < s.pool { assert EntryOk(s, k) && TaskOk(s, s.queue[k]); }
  }

  /** Adding keeps every key in agreement exactly when the task brings no scaled ticks with it. */
  lemma AddKeepsIndexIff(s: Sched, t: TaskId, task: Task)
    requires IndexOk(s) && NiceInRange(task.nice) && !Queued(s, t)
    ensures (if s.min.None? then 0 else s.min.value, s.pool) !in s.queue
    ensures IndexOk(Add(s, t, task)) <==> Scaled(task.nice, task.delta) == 0
  {
    var s1 := Add(s, t, task);
    var v := if s.min.None? then 0 else s.min.value;
    KeysBelowPool(s);
    if Scaled(task.nice, task.delta) == 0 {
      forall k | k in s1.queue ensures EntryOk(s1, k) { if k in s.queue && k != (v, s.pool) { assert EntryOk(s, k); } }
      forall u | u in s1.tasks ensures TaskOk(s1, u) { if u != t { assert TaskOk(s, u); } }
      forall u, w | u in s1.tasks && w in s1.tasks ensures IdsDiffer(s1, u, w) {
        if u != t { assert TaskOk(s, u); }
        if w != t { assert TaskOk(s, w); }
        if u != t && w != t { assert IdsDiffer(s, u, w); }
      }
    } else {
      assert !EntryOk(s1, (v, s.pool));
    }
  }

  /** A new task starts at the recorded minimum, and then the smallest virtual runtime in the queue is recorded. */
  lemma AddRecordsMinimum(s: Sched, t: TaskId, task: Task)
    requires IndexOk(s) && NiceInRange(task.nice) && !Queued(s, t) && Scaled(task.nice, task.delta) == 0
    ensures var s1 := Add(s, t, task);
      && Queued(s1, t) && Vruntime(s1.tasks[t]) == (if s.min.None? then 0 else s.min.value)
      && s1.min.Some? && (forall k | k in s1.queue :: s1.min.value <= k.0) && exists k :: k in s1.queue && k.0 == s1.min.value
  {
    var s1 := Add(s, t, task);
    assert s1.queue[(if s.min.None? then 0 else s.min.value, s.pool)] == t;
    assert FirstKey(s1.queue) in s1.queue;
  }

  /** Putting a task back overwrites no entry and keeps the index. */
  lemma PutKeepsIndex(s: Sched, t: TaskId)
    requires IndexOk(s) && t in s.tasks && NiceInRange(s.tasks[t].nice) && !Queued(s, t)
    ensures KeyOf(s.tasks[t].(id := s.pool)) !in s.queue
    ensures IndexOk(Put(s, t))
  {
    var s1 := Put(s, t);
    var k0 := KeyOf(s.tasks[t].(id := s.pool));
    KeysBelowPool(s);
    forall k | k in s1.queue ensures EntryOk(s1, k) { if k != k0 { assert EntryOk(s, k); } }
    forall u | u in s1.tasks ensures TaskOk(s1, u) { assert TaskOk(s, u); }
    forall u, w | u in s1.tasks && w in s1.tasks ensures IdsDiffer(s1, u, w) {
      assert TaskOk(s, u) && TaskOk(s, w) && IdsDiffer(s, u, w);
    }
  }

  /** A queued task has exactly one entry, under its own key. */
  lemma OneEntry(s: Sched, t: TaskId, k: Key)
    requires IndexOk(s) && k in s.queue && s.queue[k] == t
    ensures t in s.tasks && NiceInRange(s.tasks[t].nice) && KeyOf(s.tasks[t]) == k
    ensures forall j | j in s.queue && s.queue[j] == t :: j == k
  {
    assert EntryOk(s, k);
    forall j | j in s.queue && s.queue[j] == t ensures j == k { assert EntryOk(s, j); }
  }

  /** Picking takes the task with the smallest virtual runtime, ties in order of arrival, and only it. */
  lemma PickTakesMinimum(s: Sched)
    requires IndexOk(s) && s.queue != map[]
    ensures var (s1, r) := Pick(s);
      && IndexOk(s1) && r.Some? && r.value in s.tasks && NiceInRange(s.tasks[r.value].nice) && !Queued(s1, r.value)
      && s1.tasks == s.tasks && s1.pool == s.pool
      && (forall u | Queued(s, u) ::
            && u in s.tasks && NiceInRange(s.tasks[u].nice)
            && Before(KeyOf(s.tasks[r.value]), KeyOf(s.tasks[u])) && (Queued(s1, u) <==> u != r.value)
            && Vruntime(s.tasks[r.value]) <= Vruntime(s.tasks[u])
            && (Vruntime(s.tasks[r.value]) == Vruntime(s.tasks[u]) ==> s.tasks[r.value].id <= s.tasks[u].id))
  {
    var (s1, r) := Pick(s);
    var k := FirstKey(s.queue);
    OneEntry(s, r.value, k);
    forall j | j in s1.queue ensures EntryOk(s1, j) { assert EntryOk(s, j); }
    forall u | u in s1.tasks ensures TaskOk(s1, u) { assert TaskOk(s, u); }
    forall u, w | u in s1.tasks && w in s1.tasks ensures IdsDiffer(s1, u, w) { assert IdsDiffer(s, u, w); }
    forall u | Queued(s, u) ensures u in s.tasks && NiceInRange(s.tasks[u].nice)
        && Before(KeyOf(s.tasks[r.value]), KeyOf(s.tasks[u])) && (Queued(s1, u) <==> u != r.value)
        && Vruntime(s.tasks[r.value]) <= Vruntime(s.tasks[u])
        && (Vruntime(s.tasks[r.value]) == Vruntime(s.tasks[u]) ==> s.tasks[r.value].id <= s.tasks[u].id) {
      var j :| j in s.queue && s.queue[j] == u;
      OneEntry(s, u, j);
      assert u != r.value ==> j in s1.queue && s1.queue[j] == u;
    }
  }

  /** Removing a queued task removes exactly that task; removing one that is not queued changes nothing. */
  lemma RemoveTakesExactly(s: Sched, t: TaskId)
    requires IndexOk(s) && t in s.tasks && NiceInRange(s.tasks[t].nice)
    ensures var (s1, r) := Remove(s, t);
      && IndexOk(s1)
      && (Queued(s, t) ==> r == Some(t) && s1.min == MinOf(s1.queue))
      && (!Queued(s, t) ==> r == None && s1 == s)
      && (forall u :: Queued(s1, u) <==> Queued(s, u) && u != t)
  {
    var (s1, r) := Remove(s, t);
    var k := KeyOf(s.tasks[t]);
    if k in s.queue { assert EntryOk(s, k) && IdsDiffer(s, t, s.queue[k]); }
    forall j | j in s1.queue ensures EntryOk(s1, j) { assert EntryOk(s, j); }
    forall u | u in s1.tasks ensures TaskOk(s1, u) { assert TaskOk(s, u); }
    forall u, w | u in s1.tasks && w in s1.tasks ensures IdsDiffer(s1, u, w) { assert IdsDiffer(s, u, w); }
    forall u | Queued(s, u) ensures Queued(s1, u) <==> u != t {
      var j :| j in s.queue && s.queue[j] == u;
      OneEntry(s, u, j);
      assert u != t ==> j in s1.queue && s1.queue[j] == u;
    }
  }

  /** A tick on a task that is not queued leaves the index alone. */
  lemma TickKeepsIndex(s: Sched, t: TaskId)
    requires IndexOk(s) && t in s.tasks && !Queued(s, t)
    ensures IndexOk(Tick(s, t))
  {
    var s1 := Tick(s, t);
    forall k | k in s1.queue ensures EntryOk(s1, k) { assert EntryOk(s, k); }
    forall u | u in s1.tasks ensures TaskOk(s1, u) { assert TaskOk(s, u); }
    forall u, w | u in s1.tasks && w in s1.tasks ensures IdsDiffer(s1, u, w) { assert IdsDiffer(s, u, w); }
  }

  /** A change of priority moves no virtual runtime, so it may hit a queued task. */
  lemma SetPriorityKeepsIndex(s: Sched, t: TaskId, nice: int)
    requires IndexOk(s) && t in s.tasks && NiceInRange(s.tasks[t].nice)
    ensures IndexOk(SetPriority(s, t, nice))
    ensures NiceInRange(SetPriority(s, t, nice).tasks[t].nice)
    ensures Vruntime(SetPriority(s, t, nice).tasks[t]) == Vruntime(s.tasks[t])
  {
    var s1 := SetPriority(s, t, nice);
    forall k | k in s1.queue ensures EntryOk(s1, k) { assert EntryOk(s, k); }
    forall u | u in s1.tasks ensures TaskOk(s1, u) { assert TaskOk(s, u); }
    forall u, w | u in s1.tasks && w in s1.tasks ensures IdsDiffer(s1, u, w) { assert IdsDiffer(s, u, w); }
  }

  /** A valid priority is stored and moves no virtual runtime; an invalid one changes nothing; no other task changes. */
  lemma SetPrioritySets(s: Sched, t: TaskId, nice: int)
    requires IndexOk(s) && t in s.tasks && NiceInRange(s.tasks[t].nice)
    ensures var s1 := SetPriority(s, t, nice);
      && s1.queue == s.queue && s1.min == s.min && s1.pool == s.pool && s1.tasks.Keys == s.tasks.Keys
      && (forall u | u in s.tasks && u != t :: s1.tasks[u] == s.tasks[u]) && s1.tasks[t].id == s.tasks[t].id
      && (if -20 <= nice <= 19 then s1.tasks[t].nice == nice && Vruntime(s1.tasks[t]) == Vruntime(s.tasks[t]) else s1 == s)
  {
    SetPriorityKeepsIndex(s, t, nice);
  }

  ghost function Ticked(s: Sched, t: TaskId, k: nat): (r: Sched)
    requires t in s.tasks
    ensures t in r.tasks
  {
    if k == 0 then s else Tick(Ticked(s, t, k - 1), t)
  }

  lemma {:induction false} TicksCount(s: Sched, t: TaskId, k: nat)
    requires t in s.tasks
    ensures Ticked(s, t, k) == s.(tasks := s.tasks[t := s.tasks[t].(delta := s.tasks[t].delta + k)])
  {
    if k > 0 { TicksCount(s, t, k - 1); }
  }

  /** From a change of priority on, k ticks add k * 1024 / weight to the virtual runtime. */
  lemma PriorityTakesEffect(s: Sched, t: TaskId, nice: int, k: nat)
    requires IndexOk(s) && t in s.tasks && NiceInRange(s.tasks[t].nice) && -20 <= nice <= 19
    ensures var s1 := Ticked(SetPriority(s, t, nice), t, k);
      && NiceInRange(s1.tasks[t].nice) && Vruntime(s1.tasks[t]) == Vruntime(s.tasks[t]) + k * 1024 / Weight(nice)
  {
    SetPrioritySets(s, t, nice);
    TicksCount(SetPriority(s, t, nice), t, k);
    ScaledIsDivision(nice, k);
  }

  // ---------------------------------------------------------------- any run of calls

  /** A scheduler call; `Enter` carries the task's fields as `add_task` finds them. */
  datatype Call =
    | Enter(task: TaskId, fields: Task) | Leave(task: TaskId) | Next | PutBack(task: TaskId)
    | OneTick(task: TaskId) | Reprioritise(task: TaskId, nice: int)

  /** Only tasks that are not queued are added, put back or ticked, and a task is added with no scaled ticks. */
  ghost predicate Allowed(s: Sched, c: Call) {
    match c
    case Enter(t, fields) => NiceInRange(fields.nice) && Scaled(fields.nice, fields.delta) == 0 && !Queued(s, t)
    case Next => true
    case Leave(t) => t in s.tasks && NiceInRange(s.tasks[t].nice)
    case Reprioritise(t, _) => t in s.tasks && NiceInRange(s.tasks[t].nice)
    case _ => c.task in s.tasks && NiceInRange(s.tasks[c.task].nice) && !Queued(s, c.task)
  }

  ghost function After(s: Sched, c: Call): Sched
    requires Allowed(s, c)
  {
    match c
    case Enter(t, fields) => Add(s, t, fields)
    case Leave(t) => Remove(s, t).0
    case Next => Pick(s).0
    case PutBack(t) => Put(s, t)
    case OneTick(t) => Tick(s, t)
    case Reprioritise(t, nice) => SetPriority(s, t, nice)
  }

  ghost predicate AllowedRun(s: Sched, calls: seq<Call>)
    decreases |calls|
  {
    calls == [] || (Allowed(s, calls[0]) && AllowedRun(After(s, calls[0]), calls[1..]))
  }

  ghost function AfterRun(s: Sched, calls: seq<Call>): Sched
    requires AllowedRun(s, calls)
    decreases |calls|
  {
    if calls == [] then s else AfterRun(After(s, calls[0]), calls[1..])
  }

  lemma CallKeepsIndex(s: Sched, c: Call)
    requires IndexOk(s) && Allowed(s, c)
    ensures IndexOk(After(s, c))
  {
    match c
    case Enter(t, fields) => AddKeepsIndexIff(s, t, fields);
    case Leave(t) => RemoveTakesExactly(s, t);
    case Next => if s.queue != map[] { PickTakesMinimum(s); }
    case PutBack(t) => PutKeepsIndex(s, t);
    case OneTick(t) => TickKeepsIndex(s, t);
    case Reprioritise(t, nice) => SetPriorityKeepsIndex(s, t, nice);
  }

  /** In every run the ready queue's keys agree with the tasks they lead to. */
  lemma {:induction false} RunKeepsIndex(s: Sched, calls: seq<Call>)
    requires IndexOk(s) && AllowedRun(s, calls)
    ensures IndexOk(AfterRun(s, calls))
    decreases |calls|
  {
    if calls != [] {
      CallKeepsIndex(s, calls[0]);
      RunKeepsIndex(After(s, calls[0]), calls[1..]);
    }
  }

  /** What a wakeup does: a task that ran and is added again brings its ticks, and its entry is keyed wrongly.
      Removing it then finds nothing. */
  lemma AddingAgainBreaksIndex(t: TaskId)
    ensures var s1 := Add(NEW, t, Task(0, 0, 0, 0));
      && t in s1.tasks
      && var s2 := Tick(Pick(s1).0, t);
      && t in s2.tasks
      && var s3 := Add(s2, t, s2.tasks[t]);
      && Queued(s3, t) && !IndexOk(s3)
      && t in s3.tasks && NiceInRange(s3.tasks[t].nice) && Remove(s3, t).1 == None
  {
    var s1 := Add(NEW, t, Task(0, 0, 0, 0));
    assert s1.queue == map[(0, 0) := t];
    assert (0, 0) in s1.queue && FirstKey(s1.queue) == (0, 0);
    var s2 := Tick(Pick(s1).0, t);
    assert s2.queue == map[];
    var s3 := Add(s2, t, s2.tasks[t]);
    assert s3.queue == map[(0, 1) := t] && s3.queue[(0, 1)] == t;
    assert (0, 1) in s3.queue && !EntryOk(s3, (0, 1));
  }

  // ---------------------------------------------------------------- fairness

  /** How much one tick can add to a virtual runtime. */
  function MaxStep(nice: int): int
    requires NiceInRange(nice)
  {
    if nice == 0 then 1 else 1024 / Weight(nice) + 1
  }

  lemma MulKeepsOrder(a: int, b: int, w: int)
    requires a <= b && w >= 0
    ensures a * w <= b * w
  {
    assert (b - a) * w >= 0;
  }

  lemma MulCancel(a: int, b: int, w: int)
    requires w > 0 && a * w < b * w
    ensures a < b
  {
    if a >= b { MulKeepsOrder(b, a, w); }
  }

  /** `d` is x / w and `q` is a quotient whose remainder may be up to 2w. */
  lemma DivBounds(x: int, w: int, q: int, r: int)
    requires w > 0 && x == q * w + r && 0 <= r < 2 * w
    ensures q <= x / w <= q + 1
  {
    var d := x / w;
    assert x == d * w + x % w;
    assert (d + 1) * w == d * w + w && (q + 2) * w == q * w + 2 * w;
    MulCancel(q, d + 1, w);
    MulCancel(d, q + 2, w);
  }

  lemma DivSplit(x: int, y: nat, w: int)
    requires w > 0
    ensures x / w <= (x + y) / w <= x / w + y / w + 1
  {
    var q, a := x / w, y / w;
    assert x == q * w + x % w && y == a * w + y % w;
    assert (q + a) * w == q * w + a * w;
    DivBounds(x + y, w, q + a, x % w + y % w);
  }

  lemma StepBounds(nice: int, delta: nat)
    requires NiceInRange(nice)
    ensures Scaled(nice, delta) <= Scaled(nice, delta + 1) <= Scaled(nice, delta) + MaxStep(nice)
    ensures 1 <= MaxStep(nice) <= 69
  {
    var w := Weight(nice);
    if nice != 0 {
      assert (delta + 1) * 1024 == delta * 1024 + 1024;
      DivSplit(delta * 1024, 1024, w);
      var q := 1024 / w;
      assert q * w <= 1024;
      MulKeepsOrder(15, w, q);
    }
  }

  /** Every task is ready. */
  ghost predicate AllQueued(s: Sched) {
    forall t | t in s.tasks :: Queued(s, t)
  }

  /** No virtual runtime is more than `bound` ahead of another. */
  ghost predicate Spread(s: Sched, bound: int) {
    forall t, u | t in s.tasks && u in s.tasks ::
      NiceInRange(s.tasks[t].nice) && NiceInRange(s.tasks[u].nice) && Vruntime(s.tasks[t]) - Vruntime(s.tasks[u]) <= bound
  }

  /** One round: pick, one tick, put back. */
  ghost function Round(s: Sched): Sched
    requires IndexOk(s) && s.queue != map[]
  {
    PickTakesMinimum(s);
    var (s1, r) := Pick(s);
    TickKeepsIndex(s1, r.value);
    Put(Tick(s1, r.value), r.value)
  }

  /** What one round does: the task with the smallest virtual runtime gets one tick and is queued again. */
  lemma RoundEffect(s: Sched) returns (t: TaskId)
    requires IndexOk(s) && s.queue != map[] && AllQueued(s)
    ensures t in s.tasks && IndexOk(Round(s)) && AllQueued(Round(s)) && Round(s).queue != map[]
    ensures Round(s).tasks == s.tasks[t := s.tasks[t].(delta := s.tasks[t].delta + 1, id := s.pool)]
    ensures forall u | u in s.tasks ::
      NiceInRange(s.tasks[t].nice) && NiceInRange(s.tasks[u].nice) && Vruntime(s.tasks[t]) <= Vruntime(s.tasks[u])
  {
    PickTakesMinimum(s);
    var (s1, r) := Pick(s);
    t := r.value;
    TickKeepsIndex(s1, t);
    var s2 := Tick(s1, t);
    assert !Queued(s2, t);
    PutKeepsIndex(s2, t);
    var s3 := Put(s2, t);
    assert s3.queue[KeyOf(s3.tasks[t])] == t;
    forall u | u in s3.tasks ensures Queued(s3, u) {
      if u != t {
        assert Queued(s, u);
        var k :| k in s1.queue && s1.queue[k] == u;
        assert k in s3.queue && s3.queue[k] == u;
      }
    }
    forall u | u in s.tasks ensures NiceInRange(s.tasks[u].nice) && Vruntime(s.tasks[t]) <= Vruntime(s.tasks[u]) {
      assert Queued(s, u);
    }
  }

  lemma OneTickBounds(x: Task, y: Task)
    requires NiceInRange(x.nice) && y == x.(delta := x.delta + 1, id := y.id)
    ensures Vruntime(x) <= Vruntime(y) <= Vruntime(x) + MaxStep(x.nice)
  {
    StepBounds(x.nice, x.delta);
  }

  lemma RoundKeepsSpread(s: Sched, bound: int)
    requires IndexOk(s) && s.queue != map[] && AllQueued(s) && Spread(s, bound)
    requires forall t | t in s.tasks :: NiceInRange(s.tasks[t].nice) && MaxStep(s.tasks[t].nice) <= bound
    ensures IndexOk(Round(s)) && AllQueued(Round(s)) && Spread(Round(s), bound) && Round(s).queue != map[]
    ensures Round(s).tasks.Keys == s.tasks.Keys
    ensures forall t | t in s.tasks :: Round(s).tasks[t].nice == s.tasks[t].nice && Round(s).tasks[t].init == s.tasks[t].init
  {
    var t := RoundEffect(s);
    var s1 := Round(s);
    OneTickBounds(s.tasks[t], s1.tasks[t]);
    forall u, w | u in s1.tasks && w in s1.tasks
      ensures NiceInRange(s1.tasks[u].nice) && NiceInRange(s1.tasks[w].nice) && Vruntime(s1.tasks[u]) - Vruntime(s1.tasks[w]) <= bound
    {
      assert Vruntime(s.tasks[u]) - Vruntime(s.tasks[w]) <= bound;
    }
  }

  // ---------------------------------------------------------------- rounds and priority changes

  datatype Op = OneRound | Prio(task: TaskId, nice: int)

  ghost predicate Ready(s: Sched) {
    IndexOk(s) && s.queue != map[] && AllQueued(s)
  }

  ghost predicate Names(s: Sched, ops: seq<Op>) {
    forall i | 0 <= i < |ops| :: ops[i].Prio? ==> ops[i].task in s.tasks
  }

  ghost function Do(s: Sched, op: Op): (r: Sched)
    requires Ready(s) && (op.Prio? ==> op.task in s.tasks)
    ensures Ready(r) && r.tasks.Keys == s.tasks.Keys
  {
    match op
    case OneRound =>
      assert Ready(Round(s)) && Round(s).tasks.Keys == s.tasks.Keys by { var t := RoundEffect(s); }
      Round(s)
    case Prio(t, nice) =>
      assert TaskOk(s, t);
      SetPriorityKeepsIndex(s, t, nice);
      var r := SetPriority(s, t, nice);
      assert forall u | u in r.tasks :: Queued(s, u) && (Queued(s, u) ==> Queued(r, u));
      r
  }

  ghost function Run(s: Sched, ops: seq<Op>): (r: Sched)
    requires Ready(s) && Names(s, ops)
    ensures Ready(r) && r.tasks.Keys == s.tasks.Keys
    decreases |ops|
  {
    if ops == [] then s else Do(Run(s, ops[..|ops| - 1]), ops[|ops| - 1])
  }

  /** Every task is ready and has just been created. */
  ghost predicate Fresh(s: Sched) {
    Ready(s) && forall t | t in s.tasks :: s.tasks[t].(id := 0) == Task(0, 0, 0, 0)
  }

  /** Tasks 0..n-1 added to a new scheduler. */
  ghost function AddFresh(n: nat): Sched {
    if n == 0 then NEW else Add(AddFresh(n - 1), n - 1, Task(0, 0, 0, 0))
  }

  ghost predicate FreshSoFar(s: Sched, n: nat) {
    && IndexOk(s) && AllQueued(s) && s.pool == n && (s.min == None || s.min == Some(0))
    && (forall t: TaskId :: t in s.tasks <==> t < n) && (forall k | k in s.queue :: k.0 == 0)
    && (forall t | t in s.tasks :: s.tasks[t] == Task(0, 0, 0, t))
  }

  lemma FreshOneMore(s: Sched, n: nat)
    requires FreshSoFar(s, n)
    ensures FreshSoFar(Add(s, n, Task(0, 0, 0, 0)), n + 1)
    ensures Add(s, n, Task(0, 0, 0, 0)).queue != map[]
  {
    var s1 := Add(s, n, Task(0, 0, 0, 0));
    forall k | k in s.queue ensures s.queue[k] < n { assert EntryOk(s, k); }
    AddKeepsIndexIff(s, n, Task(0, 0, 0, 0));
    assert (0, n) in s1.queue && s1.queue[(0, n)] == n;
    forall t | t in s1.tasks ensures Queued(s1, t) {
      if t != n {
        assert Queued(s, t);
        var k :| k in s.queue && s.queue[k] == t;
        assert k in s1.queue && s1.queue[k] == t;
      }
    }
  }

  lemma SoFarIsFresh(s: Sched, n: nat)
    requires FreshSoFar(s, n) && s.queue != map[]
    ensures Fresh(s)
  {
  }

  lemma {:induction false} AddFreshIsFresh(n: nat)
    ensures FreshSoFar(AddFresh(n), n)
    ensures n > 0 ==> Fresh(AddFresh(n))
  {
    if n > 0 {
      AddFreshIsFresh(n - 1);
      FreshOneMore(AddFresh(n - 1), n - 1);
      SoFarIsFresh(AddFresh(n), n);
    }
  }

  lemma DoKeepsSpread(s: Sched, op: Op)
    requires Ready(s) && Spread(s, 69) && (op.Prio? ==> op.task in s.tasks)
    ensures Spread(Do(s, op), 69)
  {
    match op
    case OneRound =>
      forall t | t in s.tasks ensures NiceInRange(s.tasks[t].nice) && MaxStep(s.tasks[t].nice) <= 69 {
        assert TaskOk(s, t);
        StepBounds(s.tasks[t].nice, 0);
      }
      RoundKeepsSpread(s, 69);
    case Prio(t, nice) =>
      assert TaskOk(s, t);
      SetPriorityKeepsIndex(s, t, nice);
  }

  lemma {:induction false} RunKeepsSpread(s: Sched, ops: seq<Op>)
    requires Ready(s) && Spread(s, 69) && Names(s, ops)
    ensures Spread(Run(s, ops), 69)
    decreases |ops|
  {
    if ops != [] {
      RunKeepsSpread(s, ops[..|ops| - 1]);
      DoKeepsSpread(Run(s, ops[..|ops| - 1]), ops[|ops| - 1]);
    }
  }

  /** In any run of rounds and priority changes, virtual runtimes stay within 69 of each other. */
  lemma SpreadStaysWithin69(s: Sched, ops: seq<Op>)
    requires Fresh(s) && Names(s, ops)
    ensures Spread(Run(s, ops), 69)
  {
    RunKeepsSpread(s, ops);
  }

  ghost function Rounds(k: nat): (ops: seq<Op>)
    ensures |ops| == k && forall i | 0 <= i < k :: ops[i] == OneRound
  {
    seq(k, _ => OneRound)
  }

  ghost predicate AllNiceZero(s: Sched) {
    forall t | t in s.tasks :: s.tasks[t].nice == 0
  }

  lemma DoKeepsSpread1(s: Sched, op: Op)
    requires Ready(s) && AllNiceZero(s) && Spread(s, 1) && (op.Prio? ==> op.task in s.tasks && op.nice == 0)
    ensures Spread(Do(s, op), 1) && AllNiceZero(Do(s, op))
  {
    match op
    case OneRound => RoundKeepsSpread(s, 1);
    case Prio(t, nice) =>
      assert TaskOk(s, t);
      SetPriorityKeepsIndex(s, t, nice);
  }

  /** With every nice value 0 throughout, within 1. */
  lemma {:induction false} SpreadStaysWithin1(s: Sched, ops: seq<Op>)
    requires Fresh(s) && Names(s, ops) && forall i | 0 <= i < |ops| :: ops[i].Prio? ==> ops[i].nice == 0
    ensures Spread(Run(s, ops), 1) && AllNiceZero(Run(s, ops))
    decreases |ops|
  {
    if ops != [] {
      SpreadStaysWithin1(s, ops[..|ops| - 1]);
      DoKeepsSpread1(Run(s, ops[..|ops| - 1]), ops[|ops| - 1]);
    }
  }

  // ---------------------------------------------------------------- late arrivals

  /** Where a new task starts. */
  ghost function Recorded(s: Sched): int {
    if s.min.None? then 0 else s.min.value
  }

  ghost predicate Near(task: Task, v: int, bound: int) {
    NiceInRange(task.nice) && -bound <= Vruntime(task) - v <= bound
  }

  /** A new task keeps a bound on the spread if and only if every task is within it of the recorded minimum. */
  lemma AddKeepsSpreadIff(s: Sched, t: TaskId, task: Task, bound: nat)
    requires IndexOk(s) && t !in s.tasks && NiceInRange(task.nice) && Scaled(task.nice, task.delta) == 0
    requires Spread(s, bound)
    ensures Spread(Add(s, t, task), bound) <==> forall u | u in s.tasks :: Near(s.tasks[u], Recorded(s), bound)
  {
    var s1 := Add(s, t, task);
    assert forall u | u in s.tasks :: s1.tasks[u] == s.tasks[u];
    assert Vruntime(s1.tasks[t]) == Recorded(s);
    if Spread(s1, bound) {
      forall u | u in s.tasks ensures Near(s.tasks[u], Recorded(s), bound) { assert u in s1.tasks && t in s1.tasks; }
    }
  }

  /** Task 0 is alone, with k ticks, and the recorded minimum is still the one of its arrival. */
  ghost predicate Alone(s: Sched, k: nat) {
    Ready(s) && s.min == Some(0) && s.tasks.Keys == {0} && s.tasks[0].(id := 0) == Task(0, k, 0, 0)
  }

  lemma FirstIsAlone()
    ensures Alone(AddFresh(1), 0)
  {
    AddFreshIsFresh(0);
    AddFreshIsFresh(1);
    assert AddFresh(1) == Add(AddFresh(0), 0, Task(0, 0, 0, 0));
    AddRecordsMinimum(AddFresh(0), 0, Task(0, 0, 0, 0));
  }

  /** Rounds never refresh the recorded minimum. */
  lemma RoundKeepsMinimum(s: Sched)
    requires Ready(s)
    ensures Round(s).min == s.min
  {
    PickTakesMinimum(s);
    TickKeepsIndex(Pick(s).0, Pick(s).1.value);
  }

  lemma {:induction false} RoundsOfOne(s: Sched, k: nat)
    requires Alone(s, 0)
    ensures Alone(Run(s, Rounds(k)), k)
  {
    if k > 0 {
      RoundsOfOne(s, k - 1);
      assert Rounds(k)[..k - 1] == Rounds(k - 1);
      var before := Run(s, Rounds(k - 1));
      RoundKeepsMinimum(before);
      var t := RoundEffect(before);
    }
  }

  lemma OneNiceZero(k: nat)
    ensures Vruntime(Task(0, k, 0, 0)) == k
  {
    ScaledIsDivision(0, k);
    assert Weight(0) == 1024;
  }

  lemma ArrivesBehind(s: Sched, k: nat, bound: nat)
    requires Alone(s, k)
    ensures Spread(Add(s, 1, Task(0, 0, 0, 0)), bound) <==> k <= bound
  {
    OneNiceZero(k);
    assert Vruntime(s.tasks[0]) == Vruntime(Task(0, k, 0, 0));
    AddKeepsSpreadIff(s, 1, Task(0, 0, 0, 0), bound);
    assert Near(s.tasks[0], 0, bound) <==> k <= bound;
  }

  /** So a second task that arrives after k rounds of the first starts exactly k behind it. */
  lemma LateArrivalStartsBehind(k: nat)
    ensures Ready(AddFresh(1)) && Run(AddFresh(1), Rounds(k)).tasks.Keys == {0}
    ensures forall bound: nat :: Spread(Add(Run(AddFresh(1), Rounds(k)), 1, Task(0, 0, 0, 0)), bound) <==> k <= bound
  {
    FirstIsAlone();
    RoundsOfOne(AddFresh(1), k);
    forall bound: nat ensures Spread(Add(Run(AddFresh(1), Rounds(k)), 1, Task(0, 0, 0, 0)), bound) <==> k <= bound {
      ArrivesBehind(Run(AddFresh(1), Rounds(k)), k, bound);
    }
  }

  // ---------------------------------------------------------------- shares in proportion to weights

  ghost predicate Unticked(s: Sched) {
    forall t | t in s.tasks :: s.tasks[t].init == 0 && s.tasks[t].delta == 0
  }

  lemma PrioKeepsUnticked(s: Sched, op: Op)
    requires Ready(s) && op.Prio? && op.task in s.tasks && Unticked(s)
    ensures Unticked(Do(s, op))
  {
    assert TaskOk(s, op.task);
  }

  /** Priorities set before the first tick leave virtual runtimes at 0. */
  lemma {:induction false} PriosKeepUnticked(s: Sched, prios: seq<Op>)
    requires Ready(s) && Unticked(s) && Names(s, prios) && forall i | 0 <= i < |prios| :: prios[i].Prio?
    ensures Unticked(Run(s, prios))
    decreases |prios|
  {
    if prios != [] {
      PriosKeepUnticked(s, prios[..|prios| - 1]);
      PrioKeepsUnticked(Run(s, prios[..|prios| - 1]), prios[|prios| - 1]);
    }
  }

  /** Rounds move only tick counts: nobody's base or nice value. */
  lemma {:induction false} RoundsKeepBase(s: Sched, k: nat)
    requires Ready(s)
    ensures forall t | t in s.tasks :: Run(s, Rounds(k)).tasks[t].init == s.tasks[t].init && Run(s, Rounds(k)).tasks[t].nice == s.tasks[t].nice
  {
    if k > 0 {
      RoundsKeepBase(s, k - 1);
      assert Rounds(k)[..k - 1] == Rounds(k - 1);
      var t := RoundEffect(Run(s, Rounds(k - 1)));
    }
  }

  lemma MulStrict(a: int, b: int, w: int)
    requires a < b && w > 0
    ensures a * w < b * w
  {
    MulKeepsOrder(a + 1, b, w);
    assert (a + 1) * w == a * w + w;
  }

  lemma SharesFromSpread(d: nat, v: int, w: int, d1: nat, v1: int, w1: int)
    requires w > 0 && w1 > 0 && v == d * 1024 / w && v1 == d1 * 1024 / w1 && v - v1 <= 69
    ensures d * 1024 * w1 - d1 * 1024 * w < 70 * w * w1
  {
    var x, y := d * 1024, d1 * 1024;
    assert x < v * w + w && y >= v1 * w1;
    assert x < (v + 1) * w;
    MulKeepsOrder(v + 1, v1 + 70, w);
    assert x < (v1 + 70) * w;
    MulStrict(x, (v1 + 70) * w, w1);
    MulKeepsOrder(v1 * w1, y, w);
    assert ((v1 + 70) * w) * w1 == (v1 * w1) * w + 70 * w * w1;
  }

  /** For nice values fixed before the first tick, ticks are shared in proportion to the weights after any
      number of rounds: for any two tasks, |ticks / weight - ticks' / weight'| < 70 / 1024. */
  lemma TicksFollowWeights(s: Sched, prios: seq<Op>, k: nat, t: TaskId, u: TaskId)
    requires Fresh(s) && Names(s, prios) && forall i | 0 <= i < |prios| :: prios[i].Prio?
    requires t in s.tasks && u in s.tasks
    ensures var s1 := Run(Run(s, prios), Rounds(k));
      && NiceInRange(s1.tasks[t].nice) && NiceInRange(s1.tasks[u].nice)
      && var (w, w1) := (Weight(s1.tasks[t].nice), Weight(s1.tasks[u].nice));
      s1.tasks[t].delta * 1024 * w1 - s1.tasks[u].delta * 1024 * w < 70 * w * w1
  {
    var s1 := Run(Run(s, prios), Rounds(k));
    SpreadStaysWithin69(s, prios);
    RunKeepsSpread(Run(s, prios), Rounds(k));
    PriosKeepUnticked(s, prios);
    RoundsKeepBase(Run(s, prios), k);
    var x, y := s1.tasks[t], s1.tasks[u];
    assert Vruntime(x) - Vruntime(y) <= 69;
    ScaledIsDivision(x.nice, x.delta);
    ScaledIsDivision(y.nice, y.delta);
    SharesFromSpread(x.delta, Vruntime(x), Weight(x.nice), y.delta, Vruntime(y), Weight(y.nice));
  }

  // ---------------------------------------------------------------- the scheduler object

  method SmallestKey(queue: map<Key, TaskId>) returns (k: Key)
    requires queue != map[]
    ensures k == FirstKey(queue)
  {
    k :| k in queue;
    var rest := queue.Keys - {k};
    while rest != {}
      invariant rest <= queue.Keys && k in queue
      invariant forall j | j in queue && j !in rest :: Before(k, j)
      decreases |rest|
    {
      var j :| j in rest;
      if !Before(k, j) { k := j; }
      rest := rest - {j};
    }
    assert Before(k, FirstKey(queue)) && Before(FirstKey(queue), k);
  }

  /** `k` is the smallest key of the queue. */
  ghost predicate IsFirst(queue: map<Key, TaskId>, k: Key) {
    k in queue && forall j | j in queue :: k.0 < j.0 || (k.0 == j.0 && k.1 <= j.1)
  }

  /** `min` is the smallest virtual runtime in the queue, if there is one. */
  ghost predicate IsMinimum(queue: map<Key, TaskId>, min: Option<int>) {
    if queue == map[] then min == None
    else min.Some? && (forall k | k in queue :: min.value <= k.0) && exists k :: k in queue && k.0 == min.value
  }

  class CFScheduler {
    var tasks: map<TaskId, Task>
    var readyQueue: map<Key, TaskId>
    var minVruntime: Option<int>
    var idPool: int

    ghost function View(): Sched
      reads this
    {
      Sched(tasks, readyQueue, minVruntime, idPool)
    }

    constructor ()
      ensures View() == NEW
    {
      tasks, readyQueue, minVruntime, idPool := map[], map[], None, 0;
    }

    method RefreshMin()
      modifies this`minVruntime
      ensures minVruntime == MinOf(readyQueue) && IsMinimum(readyQueue, minVruntime)
    {
      if readyQueue != map[] {
        var k := SmallestKey(readyQueue);
        minVruntime := Some(k.0);
      } else {
        minVruntime := None;
      }
    }

    method AddTask(t: TaskId, task: Task)
      modifies this
      ensures View() == Add(old(View()), t, task)
      ensures tasks == old(tasks)[t := Task(if old(minVruntime).None? then 0 else old(minVruntime).value, task.delta, task.nice, old(idPool))]
      ensures readyQueue == old(readyQueue)[(tasks[t].init, old(idPool)) := t] && idPool == old(idPool) + 1
      ensures IsMinimum(readyQueue, minVruntime)
    {
      if minVruntime.None? { minVruntime := Some(0); }
      var vruntime := minVruntime.value;
      var id := idPool;
      idPool := idPool + 1;
      tasks := tasks[t := task.(init := vruntime, id := id)];
      readyQueue := readyQueue[(vruntime, id) := t];
      RefreshMin();
    }

    method RemoveTask(t: TaskId) returns (r: Option<TaskId>)
      requires t in tasks && NiceInRange(tasks[t].nice)
      modifies this`readyQueue, this`minVruntime
      ensures (View(), r) == Remove(old(View()), t)
      ensures var k := (Vruntime(tasks[t]), tasks[t].id);
        if k in old(readyQueue) then
          r == Some(old(readyQueue)[k]) && readyQueue == old(readyQueue) - {k} && IsMinimum(readyQueue, minVruntime)
        else r == None && readyQueue == old(readyQueue) && minVruntime == old(minVruntime)
    {
      var k := KeyOf(tasks[t]);
      if k in readyQueue {
        r := Some(readyQueue[k]);
        readyQueue := readyQueue - {k};
        RefreshMin();
      } else {
        r := None;
      }
    }

    method PickNextTask() returns (r: Option<TaskId>)
      modifies this`readyQueue
      ensures (View(), r) == Pick(old(View()))
      ensures r.None? <==> old(readyQueue) == map[]
      ensures r.None? ==> readyQueue == map[]
      ensures r.Some? ==>
        exists k :: IsFirst(old(readyQueue), k) && old(readyQueue)[k] == r.value && readyQueue == old(readyQueue) - {k}
    {
      if readyQueue == map[] { return None; }
      var k := SmallestKey(readyQueue);
      assert IsFirst(readyQueue, k);
      r := Some(readyQueue[k]);
      readyQueue := readyQueue - {k};
    }

    method PutPrevTask(t: TaskId)
      requires t in tasks && NiceInRange(tasks[t].nice)
      modifies this`tasks, this`readyQueue, this`idPool
      ensures View() == Put(old(View()), t)
      ensures tasks == old(tasks)[t := old(tasks)[t].(id := old(idPool))] && idPool == old(idPool) + 1
      ensures readyQueue == old(readyQueue)[(Vruntime(old(tasks)[t]), old(idPool)) := t]
    {
      var id := idPool;
      idPool := idPool + 1;
      tasks := tasks[t := tasks[t].(id := id)];
      readyQueue := readyQueue[(Vruntime(tasks[t]), id) := t];
    }

    /** Whether the task that just ran a tick should be preempted. */
    method TaskTick(t: TaskId) returns (preempt: bool)
      requires t in tasks && NiceInRange(tasks[t].nice)
      modifies this`tasks
      ensures View() == Tick(old(View()), t)
      ensures tasks == old(tasks)[t := old(tasks)[t].(delta := old(tasks)[t].delta + 1)]
      ensures preempt <==> minVruntime.None? || Vruntime(tasks[t]) > minVruntime.value
    {
      tasks := tasks[t := tasks[t].(delta := tasks[t].delta + 1)];
      preempt := minVruntime.None? || Vruntime(tasks[t]) > minVruntime.value;
    }

    method ChangePriority(t: TaskId, nice: int) returns (ok: bool)
      requires t in tasks && NiceInRange(tasks[t].nice)
      modifies this`tasks
      ensures View() == SetPriority(old(View()), t, nice) && (ok <==> -20 <= nice <= 19)
      ensures if ok then tasks == old(tasks)[t := old(tasks)[t].(init := Vruntime(old(tasks)[t]), delta := 0, nice := nice)]
        else tasks == old(tasks)
    {
      ok := NiceInRange(nice);
      if ok {
        var current := Vruntime(tasks[t]);
        tasks := tasks[t := tasks[t].(init := current, delta := 0, nice := nice)];
      }
    }
  }
}
