/**
 Futex wait and wake over hash buckets.  A step is what happens under one bucket lock; the hash is any
 function into the 256 buckets.
 */
module Futexes {

  import opened Options

  type TaskId = nat

  const BUCKETS: nat := 256
  const TWO_32: nat := 0x1_0000_0000
  const PAGE: nat := 4096

  datatype Key = Key(pid: nat, aligned: nat, offset: nat)
  datatype Entry = Entry(key: Key, task: TaskId, bitset: bv32)

  // ---------------------------------------------------------------- keys

  /** The key of an address: process and page are cut to 32 bits; a shared futex has process 0. */
  function KeyOf(pid: nat, address: nat, shared: bool): Key {
    Key((if shared then 0 else pid) % TWO_32, (address / PAGE * PAGE) % TWO_32, address % PAGE)
  }

  /** Two private futexes are told apart exactly when process or address differ in their low 32 bits. */
  lemma SameKeyIff(p: nat, a: nat, q: nat, b: nat)
    ensures KeyOf(p, a, false) == KeyOf(q, b, false) <==> p % TWO_32 == q % TWO_32 && a % TWO_32 == b % TWO_32
  {
    LowBits(a);
    LowBits(b);
  }

  /** Shared futexes are told apart by address alone, and from a private one exactly when its process has low bits. */
  lemma SharedKeyIff(p: nat, a: nat, q: nat, b: nat)
    ensures KeyOf(p, a, true) == KeyOf(q, b, true) <==> a % TWO_32 == b % TWO_32
    ensures KeyOf(p, a, true) == KeyOf(q, b, false) <==> q % TWO_32 == 0 && a % TWO_32 == b % TWO_32
  {
    LowBits(a);
    LowBits(b);
  }

  lemma LowBits(a: nat)
    ensures a % TWO_32 == (a / PAGE * PAGE) % TWO_32 + a % PAGE && (a % TWO_32) % PAGE == a % PAGE
  {
    var q := a / TWO_32;
    assert a == q * TWO_32 + a % TWO_32;
    assert a / PAGE == q * (TWO_32 / PAGE) + (a % TWO_32) / PAGE;
  }

  // ---------------------------------------------------------------- queues

  /** Whether a wake takes an entry; `None` is a plain wake, `Some` a bitset one. */
  predicate Matches(e: Entry, key: Key, mask: Option<bv32>) {
    e.key == key && (mask.Some? ==> e.bitset & mask.value != 0)
  }

  /** What a wake of up to `n` leaves in the queue. */
  function Kept(q: seq<Entry>, key: Key, mask: Option<bv32>, n: nat): (r: seq<Entry>) {
    if q == [] then []
    else if n > 0 && Matches(q[0], key, mask) then Kept(q[1..], key, mask, n - 1)
    else [q[0]] + Kept(q[1..], key, mask, n)
  }

  function Taken(q: seq<Entry>, key: Key, mask: Option<bv32>, n: nat): (r: seq<Entry>)
    ensures |r| <= n
  {
    if q == [] || n == 0 then []
    else if Matches(q[0], key, mask) then [q[0]] + Taken(q[1..], key, mask, n - 1)
    else Taken(q[1..], key, mask, n)
  }

  function Matching(q: seq<Entry>, key: Key, mask: Option<bv32>): seq<Entry> {
    if q == [] then []
    else if Matches(q[0], key, mask) then [q[0]] + Matching(q[1..], key, mask)
    else Matching(q[1..], key, mask)
  }

  /** The entries a wake passes over. */
  function Others(q: seq<Entry>, key: Key, mask: Option<bv32>): seq<Entry> {
    if q == [] then []
    else if Matches(q[0], key, mask) then Others(q[1..], key, mask)
    else [q[0]] + Others(q[1..], key, mask)
  }

  /** A wake takes the first waiters in order, at most n, and leaves the later ones in order. */
  lemma {:induction false} WakesFirstInOrder(q: seq<Entry>, key: Key, mask: Option<bv32>, n: nat)
    ensures var m, k := Matching(q, key, mask), |Taken(q, key, mask, n)|;
      && k == (if n < |m| then n else |m|) && Taken(q, key, mask, n) == m[..k]
      && Matching(Kept(q, key, mask, n), key, mask) == m[k..]
    decreases |q|
  {
    if q != [] {
      var rest := Kept(q[1..], key, mask, n);
      if Matches(q[0], key, mask) && n > 0 {
        WakesFirstInOrder(q[1..], key, mask, n - 1);
      } else {
        WakesFirstInOrder(q[1..], key, mask, n);
        assert ([q[0]] + rest)[1..] == rest;
      }
    }
  }

  /** A wake cuts the queue: before the cut every waiter of the key is taken and all other entries stay in order,
      behind it everything stays; the cut is behind the n-th waiter, or at the end if there are fewer. */
  lemma {:induction false} WakeCutsQueue(q: seq<Entry>, key: Key, mask: Option<bv32>, n: nat) returns (cut: nat)
    ensures cut <= |q| && (|Taken(q, key, mask, n)| == n || cut == |q|)
    ensures Taken(q, key, mask, n) == Matching(q[..cut], key, mask)
    ensures Kept(q, key, mask, n) == Others(q[..cut], key, mask) + q[cut..]
    decreases |q|
  {
    if q == [] || n == 0 {
      cut := 0;
      NothingTaken(q, key, mask);
      assert q[..0] == [] && q[0..] == q;
    } else {
      var n1 := if Matches(q[0], key, mask) then n - 1 else n;
      cut := WakeCutsQueue(q[1..], key, mask, n1);
      cut := cut + 1;
      assert q[..cut][1..] == q[1..][..cut - 1] && q[cut..] == q[1..][cut - 1..];
    }
  }

  /** A wake takes only waiters of its key and, for a bitset, only those that share a bit with it. */
  lemma {:induction false} TakenWaitOnKey(q: seq<Entry>, key: Key, mask: Option<bv32>, n: nat, e: Entry)
    requires e in Taken(q, key, mask, n)
    ensures e in q && e.key == key && (mask.Some? ==> e.bitset & mask.value != 0)
    decreases |q|
  {
    var n1 := if Matches(q[0], key, mask) then n - 1 else n;
    if e in Taken(q[1..], key, mask, n1) { TakenWaitOnKey(q[1..], key, mask, n1, e); }
  }

  /** Waiters of other keys, and those without a common bit, stay. */
  lemma {:induction false} OthersStay(q: seq<Entry>, key: Key, mask: Option<bv32>, n: nat, e: Entry)
    requires e in q && (e.key != key || (mask.Some? && e.bitset & mask.value == 0))
    ensures e in Kept(q, key, mask, n)
    decreases |q|
  {
    var n1 := if n > 0 && Matches(q[0], key, mask) then n - 1 else n;
    if q[0] != e { OthersStay(q[1..], key, mask, n1, e); }
  }

  /** A waiter of the key with a common bit stays only if the wake has used up its count. */
  lemma {:induction false} WaitersStayBehind(q: seq<Entry>, key: Key, mask: Option<bv32>, n: nat, e: Entry)
    requires e in Kept(q, key, mask, n) && e.key == key && (mask.Some? ==> e.bitset & mask.value != 0)
    ensures |Taken(q, key, mask, n)| == n
    decreases |q|
  {
    if n > 0 {
      WaitersStayBehind(q[1..], key, mask, if Matches(q[0], key, mask) then n - 1 else n, e);
    }
  }

  lemma {:induction false} NothingTaken(q: seq<Entry>, key: Key, mask: Option<bv32>)
    ensures Kept(q, key, mask, 0) == q && Taken(q, key, mask, 0) == []
    decreases |q|
  {
    if q != [] { NothingTaken(q[1..], key, mask); }
  }

  ghost function TasksIn(q: seq<Entry>): set<TaskId> {
    if q == [] then {} else {q[0].task} + TasksIn(q[1..])
  }

  ghost predicate OnePerTask(q: seq<Entry>) {
    q == [] || (q[0].task !in TasksIn(q[1..]) && OnePerTask(q[1..]))
  }

  lemma TasksInPrepend(e: Entry, q: seq<Entry>)
    ensures TasksIn([e] + q) == {e.task} + TasksIn(q)
    ensures OnePerTask([e] + q) <==> OnePerTask(q) && e.task !in TasksIn(q)
  {
    assert ([e] + q)[1..] == q;
  }

  /** Each waiter of `q` stays or is taken, never both. */
  ghost predicate Parts(q: seq<Entry>, kept: seq<Entry>, taken: seq<Entry>) {
    && OnePerTask(kept) && TasksIn(kept) + TasksIn(taken) == TasksIn(q)
    && TasksIn(kept) !! TasksIn(taken) && |TasksIn(taken)| == |taken|
  }

  lemma SplitSets(x: TaskId, kept: set<TaskId>, taken: set<TaskId>, all: set<TaskId>)
    requires x !in all && kept + taken == all && kept !! taken
    ensures kept + ({x} + taken) == {x} + all && kept !! ({x} + taken) && |{x} + taken| == 1 + |taken|
    ensures ({x} + kept) + taken == {x} + all && ({x} + kept) !! taken && x !in kept
  {
  }

  lemma {:induction false} WakeParts(q: seq<Entry>, key: Key, mask: Option<bv32>, n: nat)
    requires OnePerTask(q)
    ensures Parts(q, Kept(q, key, mask, n), Taken(q, key, mask, n))
    decreases |q|
  {
    if q != [] {
      var e, n1 := q[0], if n > 0 && Matches(q[0], key, mask) then n - 1 else n;
      var kept, taken := Kept(q[1..], key, mask, n1), Taken(q[1..], key, mask, n1);
      WakeParts(q[1..], key, mask, n1);
      SplitSets(e.task, TasksIn(kept), TasksIn(taken), TasksIn(q[1..]));
      TasksInPrepend(e, kept);
      TasksInPrepend(e, taken);
    }
  }

  lemma {:induction false} KeptAreOld(q: seq<Entry>, key: Key, mask: Option<bv32>, n: nat, e: Entry)
    requires e in Kept(q, key, mask, n)
    ensures e in q
    decreases |q|
  {
    var n1 := if n > 0 && Matches(q[0], key, mask) then n - 1 else n;
    if e in Kept(q[1..], key, mask, n1) { KeptAreOld(q[1..], key, mask, n1, e); }
  }

  // ---------------------------------------------------------------- the bucket table

  type Table = seq<seq<Entry>>

  function Pushed(table: Table, b: nat, e: Entry): Table
    requires b < |table|
  {
    table[b := table[b] + [e]]
  }

  /** A wake in bucket `b`: the table left and the number woken. */
  function Woken(table: Table, b: nat, key: Key, mask: Option<bv32>, n: nat): (Table, nat)
    requires b < |table|
  {
    (table[b := Kept(table[b], key, mask, n)], |Taken(table[b], key, mask, n)|)
  }

  /** A queue without its first entry of task `t`. */
  function Without(q: seq<Entry>, t: TaskId): seq<Entry> {
    if q == [] then [] else if q[0].task == t then q[1..] else [q[0]] + Without(q[1..], t)
  }

  lemma {:induction false} FirstOfTask(q: seq<Entry>, t: TaskId, i: nat)
    requires i <= |q| && (forall j | 0 <= j < i :: q[j].task != t) && (i < |q| ==> q[i].task == t)
    ensures t in TasksIn(q) <==> i < |q|
    ensures Without(q, t) == if i < |q| then q[..i] + q[i + 1..] else q
  {
    if i > 0 {
      FirstOfTask(q[1..], t, i - 1);
      assert q == [q[0]] + q[1..];
      assert i < |q| ==> q[..i] + q[i + 1..] == [q[0]] + (q[1..][..i - 1] + q[1..][i..]);
    }
  }

  /** The index of the task's first entry. */
  method Position(q: seq<Entry>, t: TaskId) returns (found: bool, i: nat)
    ensures found <==> t in TasksIn(q)
    ensures if found then i < |q| && Without(q, t) == q[..i] + q[i + 1..] else Without(q, t) == q
  {
    i := 0;
    while i < |q| && q[i].task != t
      invariant 0 <= i <= |q| && forall j | 0 <= j < i :: q[j].task != t
    {
      i := i + 1;
    }
    found := i < |q|;
    FirstOfTask(q, t, i);
  }

  /** A scan that counts the matching entries it drops, up to n. */
  method Scan(q: seq<Entry>, key: Key, mask: Option<bv32>, n: nat) returns (kept: seq<Entry>, ret: nat)
    ensures kept == Kept(q, key, mask, n) && ret == |Taken(q, key, mask, n)|
  {
    kept, ret := [], 0;
    for i := 0 to |q|
      invariant ret <= n
      invariant Kept(q, key, mask, n) == kept + Kept(q[i..], key, mask, n - ret)
      invariant |Taken(q, key, mask, n)| == ret + |Taken(q[i..], key, mask, n - ret)|
    {
      assert q[i..][1..] == q[i + 1..];
      if ret < n && Matches(q[i], key, mask) {
        ret := ret + 1;
      } else {
        kept := kept + [q[i]];
      }
    }
  }

  /** Entry `e` before and after a wake: taken only if it waits on the key and shares a bit, kept of those only if the
      wake has used up its count. */
  ghost predicate Spared(q: seq<Entry>, q1: seq<Entry>, key: Key, mask: Option<bv32>, n: nat, count: nat, e: Entry) {
    && (e.key != key || (mask.Some? && e.bitset & mask.value == 0) ==> e in q1)
    && (e in q1 && e.key == key && (mask.Some? ==> e.bitset & mask.value != 0) ==> count == n)
  }

  /** A wake took `count` entries out of bucket `b`, at most `n`, and nothing else happened. */
  ghost predicate WokeOnly(table: Table, table1: Table, b: nat, key: Key, mask: Option<bv32>, n: nat, count: nat) {
    && b < |table| == |table1| && count <= n && |table1[b]| + count == |table[b]|
    && (forall c | 0 <= c < |table| && c != b :: table1[c] == table[c])
    && (forall e | e in table1[b] :: e in table[b])
    && (forall e | e in table[b] :: Spared(table[b], table1[b], key, mask, n, count, e))
  }

  lemma {:induction false} KeptAndTaken(q: seq<Entry>, key: Key, mask: Option<bv32>, n: nat)
    ensures |Kept(q, key, mask, n)| + |Taken(q, key, mask, n)| == |q|
    decreases |q|
  {
    if n == 0 {
      NothingTaken(q, key, mask);
    } else if q != [] {
      KeptAndTaken(q[1..], key, mask, if Matches(q[0], key, mask) then n - 1 else n);
    }
  }

  lemma WakeTouches(table: Table, b: nat, key: Key, mask: Option<bv32>, n: nat)
    requires b < |table|
    ensures WokeOnly(table, Woken(table, b, key, mask, n).0, b, key, mask, n, Woken(table, b, key, mask, n).1)
  {
    var q := table[b];
    KeptAndTaken(q, key, mask, n);
    forall e | e in Kept(q, key, mask, n) ensures e in q { KeptAreOld(q, key, mask, n, e); }
    forall e | e in q ensures Spared(q, Kept(q, key, mask, n), key, mask, n, |Taken(q, key, mask, n)|, e) {
      if e.key != key || (mask.Some? && e.bitset & mask.value == 0) { OthersStay(q, key, mask, n, e); }
      else if e in Kept(q, key, mask, n) { WaitersStayBehind(q, key, mask, n, e); }
    }
  }

  datatype WakeResult = EINVAL | Ok(count: nat)

  class FutexQueues {
    const hash: Key -> nat
    var buckets: Table

    ghost predicate Valid()
      reads this
    {
      |buckets| == BUCKETS && forall k :: hash(k) < BUCKETS
    }

    constructor (hash: Key -> nat)
      requires forall k :: hash(k) < BUCKETS
      ensures Valid() && this.hash == hash && buckets == seq(BUCKETS, _ => [])
    {
      this.hash := hash;
      buckets := seq(BUCKETS, _ => []);
    }

    /** The registering half of a wait. */
    method Enqueue(key: Key, task: TaskId, bitset: bv32)
      requires Valid()
      modifies this
      ensures Valid() && buckets == Pushed(old(buckets), hash(key), Entry(key, task, bitset))
      ensures buckets[hash(key)] == old(buckets)[hash(key)] + [Entry(key, task, bitset)]
      ensures forall b | 0 <= b < BUCKETS && b != hash(key) :: buckets[b] == old(buckets)[b]
    {
      var b := hash(key);
      buckets := buckets[b := buckets[b] + [Entry(key, task, bitset)]];
    }

    /** The resuming half of a wait: whether the task was still queued; if so its entry is gone now. */
    method RemoveOwn(key: Key, task: TaskId) returns (found: bool)
      requires Valid()
      modifies this
      ensures Valid() && (found <==> task in TasksIn(old(buckets)[hash(key)]))
      ensures buckets == old(buckets)[hash(key) := Without(old(buckets)[hash(key)], task)]
    {
      var b := hash(key);
      var i;
      found, i := Position(buckets[b], task);
      if found {
        buckets := buckets[b := buckets[b][..i] + buckets[b][i + 1..]];
      } else {
        assert buckets[b := buckets[b]] == buckets;
      }
    }

    /** The scan of a wake: `retain` with a counter. */
    method Retain(b: nat, key: Key, mask: Option<bv32>, n: nat) returns (ret: nat)
      requires Valid() && b < BUCKETS
      modifies this
      ensures Valid() && (buckets, ret) == Woken(old(buckets), b, key, mask, n)
    {
      var kept;
      kept, ret := Scan(buckets[b], key, mask, n);
      buckets := buckets[b := kept];
    }

    method Wake(key: Key, n: nat) returns (ret: WakeResult)
      requires Valid()
      modifies this
      ensures Valid() && ret.Ok? && (buckets, ret.count) == Woken(old(buckets), hash(key), key, None, n)
      ensures WokeOnly(old(buckets), buckets, hash(key), key, None, n, ret.count)
    {
      var b := hash(key);
      WakeTouches(buckets, b, key, None, n);
      if buckets[b] == [] {
        assert buckets[b := []] == buckets;
        return Ok(0);
      }
      var count := Retain(b, key, None, n);
      return Ok(count);
    }

    method WakeBitset(key: Key, n: nat, bitset: bv32) returns (ret: WakeResult)
      requires Valid()
      modifies this
      ensures Valid() && (ret == EINVAL <==> bitset == 0)
      ensures bitset == 0 ==> buckets == old(buckets)
      ensures bitset != 0 ==> (buckets, ret.count) == Woken(old(buckets), hash(key), key, Some(bitset), n)
      ensures bitset != 0 ==> WokeOnly(old(buckets), buckets, hash(key), key, Some(bitset), n, ret.count)
    {
      if bitset == 0 { return EINVAL; }
      var b := hash(key);
      WakeTouches(buckets, b, key, Some(bitset), n);
      if buckets[b] == [] {
        assert buckets[b := []] == buckets;
        return Ok(0);
      }
      var count := Retain(b, key, Some(bitset), n);
      return Ok(count);
    }
  }

  // ---------------------------------------------------------------- runs

  /** Where a task is: outside, at the head of the wait loop, or registered under a key and not resumed yet. */
  datatype Status = Out | Calling | Waiting(key: Key)

  /** `woken` sums what wakes returned; `succeeded` counts waits that returned 0. */
  datatype State = State(hash: Key -> nat, table: Table, tasks: map<TaskId, Status>, woken: nat, succeeded: nat)

  datatype Step =
    | Call(task: TaskId)
    | GiveUp(task: TaskId)
    | Register(task: TaskId, key: Key, bitset: bv32)
    | Resume(task: TaskId, interrupted: bool)
    | WakeUp(key: Key, mask: Option<bv32>, n: nat)

  function StatusOf(s: State, t: TaskId): Status {
    if t in s.tasks then s.tasks[t] else Out
  }

  ghost predicate Enabled(s: State, step: Step) {
    match step
    case Call(t) => StatusOf(s, t) == Out
    case GiveUp(t) => StatusOf(s, t) == Calling
    case Register(t, _, _) => StatusOf(s, t) == Calling
    case Resume(t, _) => StatusOf(s, t).Waiting?
    case WakeUp(_, _, _) => true
  }

  /** Task `t` has an entry in the bucket of `key`. */
  ghost predicate InBucket(s: State, key: Key, t: TaskId)
    requires s.hash(key) < |s.table|
  {
    t in TasksIn(s.table[s.hash(key)])
  }

  ghost predicate Shape(s: State) {
    |s.table| == BUCKETS && forall k :: s.hash(k) < BUCKETS
  }

  ghost function Next(s: State, step: Step): State
    requires Shape(s) && Enabled(s, step)
  {
    match step
    case Call(t) => s.(tasks := s.tasks[t := Calling])
    case GiveUp(t) => s.(tasks := s.tasks[t := Out])
    case Register(t, key, bitset) =>
      s.(tasks := s.tasks[t := Waiting(key)], table := Pushed(s.table, s.hash(key), Entry(key, t, bitset)))
    case Resume(t, interrupted) =>
      var key := s.tasks[t].key;
      if InBucket(s, key, t) then
        s.(tasks := s.tasks[t := if interrupted then Out else Calling],
           table := s.table[s.hash(key) := Without(s.table[s.hash(key)], t)])
      else s.(tasks := s.tasks[t := Out], succeeded := s.succeeded + 1)
    case WakeUp(key, mask, n) =>
      if mask == Some(0) then s
      else
        var (table, count) := Woken(s.table, s.hash(key), key, mask, n);
        s.(table := table, woken := s.woken + count)
  }

  // ---------------------------------------------------------------- what every run keeps

  ghost predicate EntryOk(s: State, b: nat, e: Entry) {
    StatusOf(s, e.task) == Waiting(e.key) && s.hash(e.key) == b
  }

  /** A bucket holds at most one entry of a task, and only of tasks waiting on a key that hashes to it. */
  ghost predicate BucketOk(s: State, b: nat)
    requires b < |s.table|
  {
    OnePerTask(s.table[b]) && forall e | e in s.table[b] :: EntryOk(s, b, e)
  }

  /** Waiters that were taken out of their queue and have not resumed yet. */
  ghost function Dequeued(s: State): set<TaskId>
    requires Shape(s)
  {
    set t | t in s.tasks && s.tasks[t].Waiting? && !InBucket(s, s.tasks[t].key, t)
  }

  ghost predicate Inv(s: State) {
    && Shape(s)
    && (forall b: nat {:trigger BucketOk(s, b)} :: b < BUCKETS ==> BucketOk(s, b))
    && s.woken == s.succeeded + |Dequeued(s)|
  }

  lemma {:induction false} InTasksIn(q: seq<Entry>, e: Entry)
    requires e in q
    ensures e.task in TasksIn(q)
  {
    if q[0] != e { InTasksIn(q[1..], e); }
  }

  lemma {:induction false} HasEntry(q: seq<Entry>, t: TaskId) returns (e: Entry)
    requires t in TasksIn(q)
    ensures e in q && e.task == t
  {
    if q[0].task == t { e := q[0]; } else { e := HasEntry(q[1..], t); }
  }

  lemma {:induction false} TasksInAppend(q: seq<Entry>, e: Entry)
    ensures TasksIn(q + [e]) == TasksIn(q) + {e.task}
    ensures OnePerTask(q) && e.task !in TasksIn(q) ==> OnePerTask(q + [e])
  {
    if q != [] {
      TasksInAppend(q[1..], e);
      assert (q + [e])[1..] == q[1..] + [e];
    }
  }

  lemma {:induction false} WithoutOne(q: seq<Entry>, t: TaskId)
    requires OnePerTask(q)
    ensures OnePerTask(Without(q, t)) && TasksIn(Without(q, t)) == TasksIn(q) - {t}
    ensures forall e | e in Without(q, t) :: e in q
  {
    if q != [] {
      WithoutOne(q[1..], t);
      TasksInPrepend(q[0], Without(q[1..], t));
    }
  }

  /** In a sound state, an entry in a bucket tells the task's status; a task that is not waiting has none. */
  lemma EntryTellsStatus(s: State, b: nat, t: TaskId)
    requires Inv(s) && b < BUCKETS && t in TasksIn(s.table[b])
    ensures StatusOf(s, t).Waiting? && s.hash(StatusOf(s, t).key) == b
  {
    assert BucketOk(s, b);
    var e := HasEntry(s.table[b], t);
    assert EntryOk(s, b, e);
  }

  lemma RegisterKeepsInv(s: State, t: TaskId, key: Key, bitset: bv32)
    requires Inv(s) && Enabled(s, Register(t, key, bitset))
    ensures Inv(Next(s, Register(t, key, bitset)))
  {
    var s1, b0, e0 := Next(s, Register(t, key, bitset)), s.hash(key), Entry(key, t, bitset);
    assert t !in TasksIn(s.table[b0]) by { if t in TasksIn(s.table[b0]) { EntryTellsStatus(s, b0, t); } }
    TasksInAppend(s.table[b0], e0);
    forall b: nat | b < BUCKETS ensures BucketOk(s1, b) {
      assert BucketOk(s, b);
      forall e | e in s1.table[b] ensures EntryOk(s1, b, e) { assert e == e0 || EntryOk(s, b, e); }
    }
    assert Dequeued(s1) == Dequeued(s);
  }

  lemma ResumeKeepsBucket(s: State, t: TaskId, interrupted: bool, b: nat)
    requires Inv(s) && Enabled(s, Resume(t, interrupted)) && b < BUCKETS
    ensures BucketOk(Next(s, Resume(t, interrupted)), b)
  {
    var s1 := Next(s, Resume(t, interrupted));
    assert BucketOk(s, b);
    WithoutOne(s.table[b], t);
    forall e | e in s1.table[b] ensures EntryOk(s1, b, e) {
      assert EntryOk(s, b, e);
      InTasksIn(s1.table[b], e);
    }
  }

  lemma ResumeCount(s: State, t: TaskId, interrupted: bool)
    requires Inv(s) && Enabled(s, Resume(t, interrupted))
    ensures Dequeued(Next(s, Resume(t, interrupted))) == Dequeued(s) - {t}
    ensures t in Dequeued(s) <==> !InBucket(s, s.tasks[t].key, t)
  {
    var b := s.hash(s.tasks[t].key);
    assert BucketOk(s, b);
    WithoutOne(s.table[b], t);
  }

  lemma ResumeKeepsInv(s: State, t: TaskId, interrupted: bool)
    requires Inv(s) && Enabled(s, Resume(t, interrupted))
    ensures Inv(Next(s, Resume(t, interrupted)))
  {
    var s1 := Next(s, Resume(t, interrupted));
    forall b: nat | b < BUCKETS ensures BucketOk(s1, b) { ResumeKeepsBucket(s, t, interrupted, b); }
    ResumeCount(s, t, interrupted);
  }

  lemma WakeKeepsBucket(s: State, key: Key, mask: Option<bv32>, n: nat, b: nat)
    requires Inv(s) && mask != Some(0) && b < BUCKETS
    ensures BucketOk(Next(s, WakeUp(key, mask, n)), b)
  {
    var s1 := Next(s, WakeUp(key, mask, n));
    assert BucketOk(s, b);
    WakeParts(s.table[b], key, mask, n);
    forall e | e in s1.table[b] ensures EntryOk(s1, b, e) {
      if b == s.hash(key) { KeptAreOld(s.table[b], key, mask, n, e); }
      assert EntryOk(s, b, e);
    }
  }

  lemma WakeDequeues(s: State, key: Key, mask: Option<bv32>, n: nat, t: TaskId)
    requires Inv(s) && mask != Some(0)
    ensures var taken := TasksIn(Taken(s.table[s.hash(key)], key, mask, n));
      && (t in Dequeued(Next(s, WakeUp(key, mask, n))) <==> t in Dequeued(s) || t in taken)
      && !(t in Dequeued(s) && t in taken)
  {
    var s1, b := Next(s, WakeUp(key, mask, n)), s.hash(key);
    assert BucketOk(s, b);
    WakeParts(s.table[b], key, mask, n);
    if t in TasksIn(s.table[b]) { EntryTellsStatus(s, b, t); }
    assert t in s.tasks && s.tasks[t].Waiting? ==> (InBucket(s1, s.tasks[t].key, t) <==>
      InBucket(s, s.tasks[t].key, t) && !(s.hash(s.tasks[t].key) == b && t in TasksIn(Taken(s.table[b], key, mask, n))));
  }

  lemma DisjointUnionSize(a: set<TaskId>, b: set<TaskId>, c: set<TaskId>)
    requires (forall t :: t in c <==> t in a || t in b) && (forall t :: !(t in a && t in b))
    ensures |c| == |a| + |b|
  {
    assert c == a + b && a !! b;
  }

  lemma WakeCount(s: State, key: Key, mask: Option<bv32>, n: nat)
    requires Inv(s) && mask != Some(0)
    ensures |Dequeued(Next(s, WakeUp(key, mask, n)))| == |Dequeued(s)| + |Taken(s.table[s.hash(key)], key, mask, n)|
  {
    var s1, b := Next(s, WakeUp(key, mask, n)), s.hash(key);
    var taken, before, after := TasksIn(Taken(s.table[b], key, mask, n)), Dequeued(s), Dequeued(s1);
    assert BucketOk(s, b);
    WakeParts(s.table[b], key, mask, n);
    forall t ensures (t in after <==> t in before || t in taken) && !(t in before && t in taken) {
      WakeDequeues(s, key, mask, n, t);
    }
    DisjointUnionSize(before, taken, after);
  }

  lemma WakeKeepsInv(s: State, key: Key, mask: Option<bv32>, n: nat)
    requires Inv(s)
    ensures Inv(Next(s, WakeUp(key, mask, n)))
  {
    if mask != Some(0) {
      var s1 := Next(s, WakeUp(key, mask, n));
      forall b: nat | b < BUCKETS ensures BucketOk(s1, b) { WakeKeepsBucket(s, key, mask, n, b); }
      WakeCount(s, key, mask, n);
    }
  }

  lemma CallKeepsInv(s: State, t: TaskId, step: Step)
    requires Inv(s) && Enabled(s, step) && (step == Call(t) || step == GiveUp(t))
    ensures Inv(Next(s, step))
  {
    var s1 := Next(s, step);
    forall b: nat | b < BUCKETS ensures BucketOk(s1, b) {
      assert BucketOk(s, b);
      forall e | e in s1.table[b] ensures EntryOk(s1, b, e) { assert EntryOk(s, b, e); }
    }
    assert Dequeued(s1) == Dequeued(s);
  }

  lemma StepKeepsInv(s: State, step: Step)
    requires Inv(s) && Enabled(s, step)
    ensures Inv(Next(s, step))
  {
    match step
    case Call(t) => CallKeepsInv(s, t, step);
    case GiveUp(t) => CallKeepsInv(s, t, step);
    case Register(t, key, bitset) => RegisterKeepsInv(s, t, key, bitset);
    case Resume(t, interrupted) => ResumeKeepsInv(s, t, interrupted);
    case WakeUp(key, mask, n) => WakeKeepsInv(s, key, mask, n);
  }

  ghost function Init(hash: Key -> nat): State {
    State(hash, seq(BUCKETS, _ => []), map[], 0, 0)
  }

  ghost predicate Legal(s: State, run: seq<Step>)
    requires Shape(s)
    decreases |run|
  {
    run == [] || (Enabled(s, run[0]) && Legal(Next(s, run[0]), run[1..]))
  }

  ghost function After(s: State, run: seq<Step>): (r: State)
    requires Shape(s) && Legal(s, run)
    decreases |run|
  {
    if run == [] then s else After(Next(s, run[0]), run[1..])
  }

  lemma {:induction false} RunKeepsInv(s: State, run: seq<Step>)
    requires Inv(s) && Legal(s, run)
    ensures Inv(After(s, run))
    decreases |run|
  {
    if run != [] {
      StepKeepsInv(s, run[0]);
      RunKeepsInv(Next(s, run[0]), run[1..]);
    }
  }

  lemma InitHolds(hash: Key -> nat)
    requires forall k :: hash(k) < BUCKETS
    ensures Inv(Init(hash))
  {
    forall b: nat | b < BUCKETS ensures BucketOk(Init(hash), b) { assert Init(hash).table[b] == []; }
    assert Dequeued(Init(hash)) == {};
  }

  /** Some run from empty buckets leads to `s`. */
  ghost predicate Reachable(s: State) {
    && (forall k :: s.hash(k) < BUCKETS)
    && exists run :: Legal(Init(s.hash), run) && After(Init(s.hash), run) == s
  }

  lemma ReachableInv(s: State)
    requires Reachable(s)
    ensures Inv(s)
  {
    var run :| Legal(Init(s.hash), run) && After(Init(s.hash), run) == s;
    InitHolds(s.hash);
    RunKeepsInv(Init(s.hash), run);
  }

  lemma {:induction false} OneIndex(q: seq<Entry>, i: nat, j: nat)
    requires OnePerTask(q) && i < |q| && j < |q| && q[i].task == q[j].task
    ensures i == j
  {
    if i > 0 && j > 0 {
      OneIndex(q[1..], i - 1, j - 1);
    } else if i > 0 {
      InTasksIn(q[1..], q[i]);
    } else if j > 0 {
      InTasksIn(q[1..], q[j]);
    }
  }

  /** In every run a task has at most one entry, in the bucket of the key it waits on. */
  lemma AtMostOneEntry(s: State, b: nat, i: nat, c: nat, j: nat)
    requires Reachable(s) && b < |s.table| && c < |s.table| && i < |s.table[b]| && j < |s.table[c]|
    requires s.table[b][i].task == s.table[c][j].task
    ensures b == c && i == j && b == s.hash(s.table[b][i].key)
  {
    ReachableInv(s);
    assert BucketOk(s, b) && BucketOk(s, c);
    var e, f := s.table[b][i], s.table[c][j];
    assert e in s.table[b] && f in s.table[c];
    assert EntryOk(s, b, e) && EntryOk(s, c, f);
    OneIndex(s.table[b], i, j);
  }

  /** No entry survives the return of its wait. */
  lemma NoEntryAfterReturn(s: State, b: nat, e: Entry)
    requires Reachable(s) && b < |s.table| && e in s.table[b]
    ensures StatusOf(s, e.task) == Waiting(e.key)
  {
    ReachableInv(s);
    assert BucketOk(s, b);
    assert EntryOk(s, b, e);
  }

  /** In every run a wake leaves each task that waits on another key, or shares no bit with it, where it was. */
  lemma OthersSleepOn(s: State, b: nat, e: Entry, key: Key, mask: Option<bv32>, n: nat)
    requires Reachable(s) && b < |s.table| && e in s.table[b]
    requires e.key != key || (mask.Some? && e.bitset & mask.value == 0)
    ensures Shape(s)
    ensures var s1 := Next(s, WakeUp(key, mask, n)); b < |s1.table| && e in s1.table[b] && StatusOf(s1, e.task) == Waiting(e.key)
  {
    ReachableInv(s);
    assert BucketOk(s, b);
    assert EntryOk(s, b, e);
    OthersStay(s.table[b], key, mask, n, e);
  }

  /** In every run a waiter that resumes has no entry left.  It returns 0 if and only if a wake had taken its entry;
      otherwise it gives up when interrupted and starts over when not. */
  lemma ResumeOutcome(s: State, t: TaskId, interrupted: bool)
    requires Reachable(s) && StatusOf(s, t).Waiting?
    ensures Shape(s)
    ensures var s1, queued := Next(s, Resume(t, interrupted)), InBucket(s, s.tasks[t].key, t);
      && s1.succeeded == s.succeeded + (if queued then 0 else 1)
      && StatusOf(s1, t) == (if queued && !interrupted then Calling else Out)
      && (forall b: nat, e | b < |s1.table| && e in s1.table[b] :: e.task != t)
      && (forall b: nat, e | b < |s.table| && e in s.table[b] && e.task != t :: b < |s1.table| && e in s1.table[b])
  {
    ReachableInv(s);
    var s1, b0 := Next(s, Resume(t, interrupted)), s.hash(s.tasks[t].key);
    assert BucketOk(s, b0);
    WithoutOne(s.table[b0], t);
    ResumeKeepsInv(s, t, interrupted);
    forall b: nat, e | b < |s1.table| && e in s1.table[b] ensures e.task != t {
      assert BucketOk(s1, b);
      assert EntryOk(s1, b, e);
    }
    forall b: nat, e | b < |s.table| && e in s.table[b] && e.task != t ensures b < |s1.table| && e in s1.table[b] {
      WithoutKeeps(s.table[b], t, e);
    }
  }

  lemma {:induction false} WithoutKeeps(q: seq<Entry>, t: TaskId, e: Entry)
    requires e in q && e.task != t
    ensures e in Without(q, t)
  {
    if q[0] != e && q[0].task != t { WithoutKeeps(q[1..], t, e); }
  }

  /** Conservation: what wakes returned is what waits reported as success, plus the waiters still on their way. */
  lemma WakesAccountedFor(s: State)
    requires Reachable(s)
    ensures Shape(s) && s.woken == s.succeeded + |Dequeued(s)|
  {
    ReachableInv(s);
  }
}
