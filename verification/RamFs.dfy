/**
 The RAM file system's directories: parent links, lookup along a path, creation and removal.  A path walk
 that creates or removes keeps a read lock on every directory it descended from, so a change of one of those
 waits for itself; the model returns `Hang` there.
 */
module RamFs {

  import opened Options
  import opened Paths

  type NodeId = nat

  datatype Node = File(id: NodeId) | Interrupts(id: NodeId) | Dir(id: NodeId)
  datatype Kind = FileKind | DirKind | OtherKind
  datatype Error = NotFound | NotADirectory | AlreadyExists | Unsupported | DirectoryNotEmpty | InvalidInput | Hang
  datatype Result<+T> = Err(error: Error) | Ok(value: T)

  datatype DirData = DirData(parent: Option<NodeId>, children: map<string, Node>)

  /** Every directory ever made, by id; the root is 0. */
  datatype Fs = Fs(dirs: map<NodeId, DirData>, next: NodeId)

  const ROOT: NodeId := 0
  const NEW := Fs(map[ROOT := DirData(None, map[])], 1)

  // ---------------------------------------------------------------- parent links

  /** Entry `name` of directory `d`: a child directory's parent link is its container. */
  ghost predicate ChildOk(fs: Fs, d: NodeId, name: string)
    requires d in fs.dirs && name in fs.dirs[d].children
  {
    var node := fs.dirs[d].children[name];
    && Plain(name) && node.id < fs.next
    && (node.Dir? ==> d < node.id && node.id in fs.dirs && fs.dirs[node.id].parent == Some(d))
  }

  ghost predicate DirOk(fs: Fs, d: NodeId)
    requires d in fs.dirs
  {
    d < fs.next && (fs.dirs[d].parent.Some? ==> fs.dirs[d].parent.value in fs.dirs && fs.dirs[d].parent.value < d)
  }

  ghost predicate LinksOk(fs: Fs) {
    && ROOT in fs.dirs && fs.dirs[ROOT].parent == None
    && (forall d {:trigger DirOk(fs, d)} :: d in fs.dirs ==> DirOk(fs, d))
    && (forall d, name {:trigger ChildOk(fs, d, name)} ::
          d in fs.dirs && name in fs.dirs[d].children ==> ChildOk(fs, d, name))
  }

  predicate Known(fs: Fs, node: Node) {
    node.Dir? ==> node.id in fs.dirs
  }

  // ---------------------------------------------------------------- lookup

  /** One name in a directory. */
  function StepTo(fs: Fs, d: NodeId, name: string): (r: Result<Node>)
    requires LinksOk(fs) && d in fs.dirs
    ensures r.Ok? ==> Known(fs, r.value)
    ensures r.Err? ==> r.error == NotFound
  {
    if name == "" || name == "." then Ok(Dir(d))
    else if name == ".." then
      assert DirOk(fs, d);
      if fs.dirs[d].parent.None? then Err(NotFound) else Ok(Dir(fs.dirs[d].parent.value))
    else if name !in fs.dirs[d].children then Err(NotFound)
    else
      assert ChildOk(fs, d, name);
      Ok(fs.dirs[d].children[name])
  }

  function TrimStart(path: string): (r: string)
    ensures |r| <= |path| && (r != "" ==> r[0] != '/')
  {
    if path != "" && path[0] == '/' then TrimStart(path[1..]) else path
  }

  function FindSlash(path: string): (r: Option<nat>)
    ensures r.None? ==> '/' !in path
    ensures r.Some? ==> r.value < |path| && path[r.value] == '/' && '/' !in path[..r.value]
  {
    if path == "" then None
    else if path[0] == '/' then Some(0)
    else
      var n := FindSlash(path[1..]);
      assert n.Some? ==> path[..n.value + 1] == [path[0]] + path[1..][..n.value];
      if n.None? then None else Some(n.value + 1)
  }

  /** The first name of a path and what follows its slash. */
  function SplitPath(path: string): (r: (string, Option<string>))
    ensures r.1.Some? ==> |r.1.value| < |path|
  {
    var trimmed := TrimStart(path);
    var n := FindSlash(trimmed);
    if n.None? then (trimmed, None) else (trimmed[..n.value], Some(trimmed[n.value + 1..]))
  }

  /** `lookup`; nodes that are not directories refuse every path. */
  function Lookup(fs: Fs, node: Node, path: string): (r: Result<Node>)
    requires LinksOk(fs) && Known(fs, node)
    ensures r.Ok? ==> Known(fs, r.value)
    decreases |path|
  {
    if !node.Dir? then Err(NotADirectory)
    else
      var (name, rest) := SplitPath(path);
      var next := StepTo(fs, node.id, name);
      if next.Err? || rest.None? then next else Lookup(fs, next.value, rest.value)
  }

  /** Walking along components; every step needs a directory. */
  ghost function Walk(fs: Fs, node: Node, parts: seq<string>): (r: Result<Node>)
    requires LinksOk(fs) && Known(fs, node)
    ensures r.Ok? ==> Known(fs, r.value)
    decreases |parts|
  {
    if parts == [] then Ok(node)
    else if !node.Dir? then Err(NotADirectory)
    else
      var next := StepTo(fs, node.id, parts[0]);
      if next.Err? then next else Walk(fs, next.value, parts[1..])
  }

  /** `path` has the parts of its trimmed form after some empty ones. */
  ghost function Empties(n: nat): (r: seq<string>)
    ensures |r| == n
  {
    if n == 0 then [] else [""] + Empties(n - 1)
  }

  lemma {:induction false} TrimParts(path: string) returns (n: nat)
    ensures Split(path) == Empties(n) + Split(TrimStart(path))
  {
    if path != "" && path[0] == '/' {
      n := TrimParts(path[1..]);
      n := n + 1;
      assert Split(path) == [""] + Split(path[1..]);
      assert Empties(n) + Split(TrimStart(path)) == [""] + (Empties(n - 1) + Split(TrimStart(path)));
    } else {
      n := 0;
      assert Empties(0) + Split(path) == Split(path);
    }
  }

  /** The parts after the first name. */
  ghost function PartsAfter(rest: Option<string>): seq<string> {
    if rest.None? then [] else Split(rest.value)
  }

  lemma FirstPart(trimmed: string)
    ensures var n := FindSlash(trimmed);
      Split(trimmed) == if n.None? then [trimmed] + [] else [trimmed[..n.value]] + Split(trimmed[n.value + 1..])
  {
    var n := FindSlash(trimmed);
    if n.None? { SplitPlain(trimmed); } else { SplitAt(trimmed, n.value); }
  }

  lemma SplitPathParts(path: string) returns (n: nat)
    ensures Split(path) == Empties(n) + ([SplitPath(path).0] + PartsAfter(SplitPath(path).1))
  {
    n := TrimParts(path);
    FirstPart(TrimStart(path));
  }

  lemma {:induction false} WalkEmpties(fs: Fs, d: NodeId, n: nat, parts: seq<string>)
    requires LinksOk(fs) && d in fs.dirs
    ensures Walk(fs, Dir(d), Empties(n) + parts) == Walk(fs, Dir(d), parts)
  {
    if n == 0 {
      assert Empties(0) + parts == parts;
    } else {
      WalkEmpties(fs, d, n - 1, parts);
      assert (Empties(n) + parts)[1..] == Empties(n - 1) + parts;
    }
  }

  lemma WalkFirst(fs: Fs, d: NodeId, n: nat, name: string, tail: seq<string>)
    requires LinksOk(fs) && d in fs.dirs
    ensures Walk(fs, Dir(d), Empties(n) + ([name] + tail)) ==
      var next := StepTo(fs, d, name); if next.Err? then next else Walk(fs, next.value, tail)
  {
    WalkEmpties(fs, d, n, [name] + tail);
    WalkCons(fs, d, name, tail);
  }

  lemma WalkCons(fs: Fs, d: NodeId, name: string, tail: seq<string>)
    requires LinksOk(fs) && d in fs.dirs
    ensures Walk(fs, Dir(d), [name] + tail) ==
      var next := StepTo(fs, d, name); if next.Err? then next else Walk(fs, next.value, tail)
  {
    assert ([name] + tail)[1..] == tail;
  }

  /** Looking a path up is walking along its parts. */
  lemma {:induction false} LookupIsWalk(fs: Fs, node: Node, path: string)
    requires LinksOk(fs) && Known(fs, node)
    ensures Lookup(fs, node, path) == Walk(fs, node, Split(path))
    decreases |path|
  {
    if node.Dir? {
      var (name, rest) := SplitPath(path);
      var n := SplitPathParts(path);
      WalkFirst(fs, node.id, n, name, PartsAfter(rest));
      var next := StepTo(fs, node.id, name);
      if next.Ok? && rest.Some? { LookupIsWalk(fs, next.value, rest.value); }
    }
  }

  lemma {:induction false} WalkOneMore(fs: Fs, node: Node, parts: seq<string>, last: string)
    requires LinksOk(fs) && Known(fs, node)
    ensures Walk(fs, node, parts + [last]) ==
      var at := Walk(fs, node, parts); if at.Err? then at else Walk(fs, at.value, [last])
    decreases |parts|
  {
    if parts == [] {
      assert parts + [last] == [last];
    } else if node.Dir? {
      var next := StepTo(fs, node.id, parts[0]);
      assert (parts + [last])[1..] == parts[1..] + [last];
      if next.Ok? { WalkOneMore(fs, next.value, parts[1..], last); }
    }
  }

  /** A path of one part: the directory itself, its parent if it has one, or the entry of that name. */
  lemma LookupOne(fs: Fs, d: NodeId, name: string)
    requires LinksOk(fs) && d in fs.dirs && '/' !in name
    ensures Lookup(fs, Dir(d), "") == Lookup(fs, Dir(d), ".") == Ok(Dir(d))
    ensures Lookup(fs, Dir(d), "..") == if fs.dirs[d].parent.Some? then Ok(Dir(fs.dirs[d].parent.value)) else Err(NotFound)
    ensures Plain(name) ==>
      Lookup(fs, Dir(d), name) == if name in fs.dirs[d].children then Ok(fs.dirs[d].children[name]) else Err(NotFound)
    ensures Lookup(fs, Dir(ROOT), "..") == Err(NotFound)
  {
    OnePart(fs, d, "");
    OnePart(fs, d, ".");
    OnePart(fs, d, "..");
    OnePart(fs, d, name);
    OnePart(fs, ROOT, "..");
  }

  lemma OnePart(fs: Fs, d: NodeId, name: string)
    requires LinksOk(fs) && d in fs.dirs && '/' !in name
    ensures Lookup(fs, Dir(d), name) == StepTo(fs, d, name)
  {
    LookupIsWalk(fs, Dir(d), name);
    SplitPlain(name);
  }

  /** A path of two: the second is looked up from where the first leads. */
  lemma LookupJoin(fs: Fs, node: Node, a: string, b: string)
    requires LinksOk(fs) && Known(fs, node)
    ensures Lookup(fs, node, a + "/" + b) == var r := Lookup(fs, node, a); if r.Err? then r else Lookup(fs, r.value, b)
  {
    SplitConcat(a, b);
    LookupIsWalk(fs, node, a);
    LookupIsWalk(fs, node, a + "/" + b);
    WalkAppend(fs, node, Split(a), Split(b));
    if Lookup(fs, node, a).Ok? { LookupIsWalk(fs, Lookup(fs, node, a).value, b); }
  }

  lemma {:induction false} WalkAppend(fs: Fs, node: Node, a: seq<string>, b: seq<string>)
    requires LinksOk(fs) && Known(fs, node)
    ensures Walk(fs, node, a + b) == var r := Walk(fs, node, a); if r.Err? then r else Walk(fs, r.value, b)
    decreases |a|
  {
    if a == [] {
      assert a + b == b;
    } else if node.Dir? {
      assert (a + b)[1..] == a[1..] + b;
      var next := StepTo(fs, node.id, a[0]);
      if next.Ok? { WalkAppend(fs, next.value, a[1..], b); }
    }
  }

  // ---------------------------------------------------------------- lookup of canonical paths

  /** The directory reached through plain names has the one before it as its parent. */
  lemma ParentIsBelow(fs: Fs, stack: seq<string>, d: NodeId)
    requires LinksOk(fs) && AllPlain(stack) && stack != [] && Walk(fs, Dir(ROOT), stack) == Ok(Dir(d))
    ensures d in fs.dirs && fs.dirs[d].parent.Some?
    ensures Walk(fs, Dir(ROOT), stack[..|stack| - 1]) == Ok(Dir(fs.dirs[d].parent.value))
  {
    var below, name := stack[..|stack| - 1], stack[|stack| - 1];
    assert below + [name] == stack;
    WalkOneMore(fs, Dir(ROOT), below, name);
    var at := Walk(fs, Dir(ROOT), below).value;
    assert Plain(name);
    assert Walk(fs, at, [name]) == StepTo(fs, at.id, name);
    assert ChildOk(fs, at.id, name);
  }

  /** A walk from the root that succeeds ends where the walk along its normal form ends. */
  lemma {:induction false} WalkNormal(fs: Fs, parts: seq<string>)
    requires LinksOk(fs) && NoSlashes(parts) && Walk(fs, Dir(ROOT), parts).Ok?
    ensures Walk(fs, Dir(ROOT), Normal(parts)) == Walk(fs, Dir(ROOT), parts)
    decreases |parts|
  {
    if parts != [] {
      var init, last := parts[..|parts| - 1], parts[|parts| - 1];
      assert init + [last] == parts;
      WalkOneMore(fs, Dir(ROOT), init, last);
      WalkNormal(fs, init);
      var at := Walk(fs, Dir(ROOT), init).value;
      assert Walk(fs, at, [last]) == StepTo(fs, at.id, last);
      if last == ".." {
        if Normal(init) != [] { ParentIsBelow(fs, Normal(init), at.id); }
      } else if last != "" && last != "." {
        WalkOneMore(fs, Dir(ROOT), Normal(init), last);
      }
    }
  }

  /** If a path leads somewhere from the root, its canonical form leads to the same node. */
  lemma LookupCanonical(fs: Fs, path: string)
    requires LinksOk(fs) && Lookup(fs, Dir(ROOT), path).Ok?
    ensures Lookup(fs, Dir(ROOT), Canonical(path)) == Lookup(fs, Dir(ROOT), path)
  {
    LookupIsWalk(fs, Dir(ROOT), path);
    LookupIsWalk(fs, Dir(ROOT), Canonical(path));
    var stack := Normal(Split(path));
    WalkNormal(fs, Split(path));
    ComponentsArePlain(path);
    var lead := (if Absolute(path) then 1 else 0) + (if stack == [] then 1 else 0);
    WalkEmpties(fs, ROOT, lead, stack);
    assert Empties(1) == [""] && Empties(2) == ["", ""] && Empties(0) == [];
    assert Split(Canonical(path)) == Empties(lead) + stack;
  }

  // ---------------------------------------------------------------- creation and removal

  predicate Special(name: string) {
    name == "" || name == "." || name == ".."
  }

  /** Adds an entry for a new node. */
  ghost function Added(fs: Fs, d: NodeId, name: string, node: Node): Fs
    requires d in fs.dirs
  {
    var dirs := fs.dirs[d := fs.dirs[d].(children := fs.dirs[d].children[name := node])];
    Fs(if node.Dir? then dirs[node.id := DirData(Some(d), map[])] else dirs, fs.next + 1)
  }

  function NewNode(id: NodeId, name: string, kind: Kind): Node {
    if kind.DirKind? then Dir(id) else if name == "interrupts" then Interrupts(id) else File(id)
  }

  ghost function Removed(fs: Fs, d: NodeId, name: string): Fs
    requires d in fs.dirs
  {
    fs.(dirs := fs.dirs[d := fs.dirs[d].(children := fs.dirs[d].children - {name})])
  }

  lemma AddedKeepsLinks(fs: Fs, d: NodeId, name: string, kind: Kind)
    requires LinksOk(fs) && d in fs.dirs && Plain(name)
    ensures LinksOk(Added(fs, d, name, NewNode(fs.next, name, kind)))
  {
    var fs1 := Added(fs, d, name, NewNode(fs.next, name, kind));
    assert DirOk(fs, d) && DirOk(fs, ROOT);
    forall e | e in fs1.dirs ensures DirOk(fs1, e) { if e in fs.dirs { assert DirOk(fs, e); } }
    forall e, n | e in fs1.dirs && n in fs1.dirs[e].children ensures ChildOk(fs1, e, n) {
      if e in fs.dirs && n in fs.dirs[e].children { assert DirOk(fs, e) && ChildOk(fs, e, n); }
    }
  }

  lemma RemovedKeepsLinks(fs: Fs, d: NodeId, name: string)
    requires LinksOk(fs) && d in fs.dirs
    ensures LinksOk(Removed(fs, d, name))
  {
    var fs1 := Removed(fs, d, name);
    forall e | e in fs1.dirs ensures DirOk(fs1, e) { assert DirOk(fs, e); }
    forall e, n | e in fs1.dirs && n in fs1.dirs[e].children ensures ChildOk(fs1, e, n) { assert ChildOk(fs, e, n); }
  }

  /** Where a create or remove ends up: the directory, the last name, and the directories whose children stay
      read-locked on the way. */
  datatype Spot = Spot(dir: NodeId, name: string, locked: set<NodeId>)

  ghost function Goal(fs: Fs, node: Node, parts: seq<string>): (r: Result<Spot>)
    requires LinksOk(fs) && Known(fs, node) && parts != []
    ensures r.Ok? ==> r.value.dir in fs.dirs
    ensures r.Err? ==> r.error == NotFound || r.error == NotADirectory
    decreases |parts|
  {
    if !node.Dir? then Err(NotADirectory)
    else if |parts| == 1 then Ok(Spot(node.id, parts[0], {}))
    else
      var next := StepTo(fs, node.id, parts[0]);
      if next.Err? then Err(next.error)
      else
        var g := Goal(fs, next.value, parts[1..]);
        if g.Err? || Special(parts[0]) then g else Ok(g.value.(locked := g.value.locked + {node.id}))
  }

  /** What creating at a spot does, with the directories in `locked` read-locked by the caller. */
  ghost function CreateAt(fs: Fs, d: NodeId, name: string, kind: Kind, locked: set<NodeId>): (Fs, Result<()>)
    requires d in fs.dirs
  {
    if Special(name) then (fs, Ok(()))
    else if name in fs.dirs[d].children then (fs, Err(AlreadyExists))
    else if kind.OtherKind? then (fs, Err(Unsupported))
    else if d in locked then (fs, Err(Hang))
    else (Added(fs, d, name, NewNode(fs.next, name, kind)), Ok(()))
  }

  ghost function RemoveAt(fs: Fs, d: NodeId, name: string, locked: set<NodeId>): (Fs, Result<()>)
    requires LinksOk(fs) && d in fs.dirs
  {
    if Special(name) then (fs, Err(InvalidInput))
    else if d in locked then (fs, Err(Hang))
    else if name !in fs.dirs[d].children then (fs, Err(NotFound))
    else
      assert ChildOk(fs, d, name);
      var node := fs.dirs[d].children[name];
      if node.Dir? && fs.dirs[node.id].children != map[] then (fs, Err(DirectoryNotEmpty))
      else (Removed(fs, d, name), Ok(()))
  }

  lemma {:induction false} GoalEmpties(fs: Fs, d: NodeId, n: nat, parts: seq<string>)
    requires LinksOk(fs) && d in fs.dirs && parts != []
    ensures Goal(fs, Dir(d), Empties(n) + parts) == Goal(fs, Dir(d), parts)
  {
    if n == 0 {
      assert Empties(0) + parts == parts;
    } else {
      GoalEmpties(fs, d, n - 1, parts);
      assert (Empties(n) + parts)[1..] == Empties(n - 1) + parts;
    }
  }

  /** The goal of a path, by its first name and the rest. */
  lemma FirstName(fs: Fs, d: NodeId, path: string)
    requires LinksOk(fs) && d in fs.dirs
    ensures var (name, rest) := SplitPath(path);
      && '/' !in name
      && (rest.None? ==> Goal(fs, Dir(d), Split(path)) == Ok(Spot(d, name, {})))
      && (rest.Some? ==> Goal(fs, Dir(d), Split(path)) == Goal(fs, Dir(d), [name] + Split(rest.value)))
  {
    var (name, rest) := SplitPath(path);
    var n := SplitPathParts(path);
    GoalEmpties(fs, d, n, [name] + PartsAfter(rest));
    assert [name] + [] == [name];
  }

  // ---------------------------------------------------------------- runs

  /** A call on any node. */
  datatype Op = Create(at: Node, path: string, kind: Kind) | Remove(at: Node, path: string)

  ghost function Do(fs: Fs, op: Op): (Fs, Result<()>)
    requires LinksOk(fs) && Known(fs, op.at)
  {
    var g := Goal(fs, op.at, Split(op.path));
    if g.Err? then (fs, Err(g.error))
    else match op
      case Create(_, _, kind) => CreateAt(fs, g.value.dir, g.value.name, kind, g.value.locked)
      case Remove(_, _) => RemoveAt(fs, g.value.dir, g.value.name, g.value.locked)
  }

  lemma {:induction false} GoalName(fs: Fs, node: Node, parts: seq<string>)
    requires LinksOk(fs) && Known(fs, node) && parts != []
    ensures Goal(fs, node, parts).Ok? ==> Goal(fs, node, parts).value.name == parts[|parts| - 1]
    decreases |parts|
  {
    if node.Dir? && |parts| > 1 {
      var next := StepTo(fs, node.id, parts[0]);
      if next.Ok? { GoalName(fs, next.value, parts[1..]); }
    }
  }

  lemma DoKeepsLinks(fs: Fs, op: Op)
    requires LinksOk(fs) && Known(fs, op.at)
    ensures LinksOk(Do(fs, op).0) && fs.dirs.Keys <= Do(fs, op).0.dirs.Keys
  {
    var g := Goal(fs, op.at, Split(op.path));
    if g.Ok? {
      GoalName(fs, op.at, Split(op.path));
      if op.Create? && !Special(g.value.name) { AddedKeepsLinks(fs, g.value.dir, g.value.name, op.kind); }
      RemovedKeepsLinks(fs, g.value.dir, g.value.name);
    }
  }

  /** Each call is on a node made before it, whether or not it is still in its directory. */
  ghost predicate OnKnown(fs: Fs, ops: seq<Op>)
    requires LinksOk(fs)
    decreases |ops|
  {
    ops == [] || (Known(fs, ops[0].at) && (DoKeepsLinks(fs, ops[0]); OnKnown(Do(fs, ops[0]).0, ops[1..])))
  }

  ghost function Run(fs: Fs, ops: seq<Op>): Fs
    requires LinksOk(fs) && OnKnown(fs, ops)
    decreases |ops|
  {
    if ops == [] then fs else DoKeepsLinks(fs, ops[0]); Run(Do(fs, ops[0]).0, ops[1..])
  }

  /** Every sequence of creates and removes keeps each child directory's parent link on its container. */
  lemma {:induction false} RunKeepsLinks(fs: Fs, ops: seq<Op>)
    requires LinksOk(fs) && OnKnown(fs, ops)
    ensures LinksOk(Run(fs, ops)) && fs.dirs.Keys <= Run(fs, ops).dirs.Keys
    decreases |ops|
  {
    if ops != [] {
      DoKeepsLinks(fs, ops[0]);
      RunKeepsLinks(Do(fs, ops[0]).0, ops[1..]);
    }
  }

  // ---------------------------------------------------------------- what a create adds

  /** A walk that led somewhere leads there after an entry was added under a new name. */
  lemma {:induction false} WalkKept(fs: Fs, fs1: Fs, d: NodeId, name: string, kind: Kind, node: Node, parts: seq<string>)
    requires LinksOk(fs) && LinksOk(fs1) && d in fs.dirs && name !in fs.dirs[d].children && Known(fs, node)
    requires fs1 == Added(fs, d, name, NewNode(fs.next, name, kind)) && Walk(fs, node, parts).Ok?
    ensures Known(fs1, node) && Walk(fs1, node, parts) == Walk(fs, node, parts)
    decreases |parts|
  {
    if node.Dir? { assert DirOk(fs, node.id); }
    if parts != [] {
      var next := StepTo(fs, node.id, parts[0]);
      assert StepTo(fs1, node.id, parts[0]) == next;
      WalkKept(fs, fs1, d, name, kind, next.value, parts[1..]);
    }
  }

  lemma {:induction false} GoalKept(fs: Fs, fs1: Fs, d: NodeId, name: string, kind: Kind, node: Node, parts: seq<string>)
    requires LinksOk(fs) && LinksOk(fs1) && d in fs.dirs && name !in fs.dirs[d].children && Known(fs, node)
    requires fs1 == Added(fs, d, name, NewNode(fs.next, name, kind)) && parts != [] && Goal(fs, node, parts).Ok?
    ensures Known(fs1, node) && Goal(fs1, node, parts) == Goal(fs, node, parts)
    decreases |parts|
  {
    if node.Dir? { assert DirOk(fs, node.id); }
    if |parts| > 1 {
      var next := StepTo(fs, node.id, parts[0]);
      assert StepTo(fs1, node.id, parts[0]) == next;
      GoalKept(fs, fs1, d, name, kind, next.value, parts[1..]);
    }
  }

  lemma {:induction false} WalkToGoal(fs: Fs, node: Node, parts: seq<string>)
    requires LinksOk(fs) && Known(fs, node) && parts != [] && Goal(fs, node, parts).Ok?
    ensures var spot := Goal(fs, node, parts).value; Walk(fs, node, parts) == StepTo(fs, spot.dir, spot.name)
    decreases |parts|
  {
    if |parts| > 1 { WalkToGoal(fs, StepTo(fs, node.id, parts[0]).value, parts[1..]); }
  }

  /** A new name in an unlocked directory: the create succeeded and was not "already there". */
  ghost predicate Makes(fs: Fs, at: Node, path: string, kind: Kind) {
    && LinksOk(fs) && Known(fs, at) && Do(fs, Create(at, path, kind)).1.Ok?
    && !Special(Goal(fs, at, Split(path)).value.name)
  }

  lemma MadeState(fs: Fs, at: Node, path: string, kind: Kind)
    requires Makes(fs, at, path, kind)
    ensures var spot := Goal(fs, at, Split(path)).value;
      && Plain(spot.name) && spot.name !in fs.dirs[spot.dir].children && spot.dir !in spot.locked
      && spot.dir < fs.next
      && Do(fs, Create(at, path, kind)).0 == Added(fs, spot.dir, spot.name, NewNode(fs.next, spot.name, kind))
  {
    GoalName(fs, at, Split(path));
    assert DirOk(fs, Goal(fs, at, Split(path)).value.dir);
  }

  /** After creating a path, looking it up finds a new node of the asked kind. */
  lemma CreateThenLookup(fs: Fs, at: Node, path: string, kind: Kind)
    requires Makes(fs, at, path, kind)
    ensures var fs1 := Do(fs, Create(at, path, kind)).0;
      LinksOk(fs1) && Known(fs1, at) && var r := Lookup(fs1, at, path);
        && r.Ok? && r.value.id == fs.next && (r.value.Dir? <==> kind.DirKind?)
        && (r.value.Interrupts? <==> kind.FileKind? && Split(path)[|Split(path)| - 1] == "interrupts")
  {
    var fs1, spot := Do(fs, Create(at, path, kind)).0, Goal(fs, at, Split(path)).value;
    MadeState(fs, at, path, kind);
    DoKeepsLinks(fs, Create(at, path, kind));
    LookupIsWalk(fs1, at, path);
    GoalKept(fs, fs1, spot.dir, spot.name, kind, at, Split(path));
    GoalName(fs, at, Split(path));
    WalkToGoal(fs1, at, Split(path));
  }

  /** ... and every path that led somewhere still leads there. */
  lemma CreateKeepsLookups(fs: Fs, at: Node, path: string, kind: Kind, from: Node, other: string)
    requires Makes(fs, at, path, kind) && Known(fs, from) && Lookup(fs, from, other).Ok?
    ensures LinksOk(Do(fs, Create(at, path, kind)).0) && Known(Do(fs, Create(at, path, kind)).0, from)
    ensures Lookup(Do(fs, Create(at, path, kind)).0, from, other) == Lookup(fs, from, other)
  {
    var fs1, spot := Do(fs, Create(at, path, kind)).0, Goal(fs, at, Split(path)).value;
    MadeState(fs, at, path, kind);
    DoKeepsLinks(fs, Create(at, path, kind));
    LookupIsWalk(fs, from, other);
    LookupIsWalk(fs1, from, other);
    WalkKept(fs, fs1, spot.dir, spot.name, kind, from, Split(other));
  }

  /** Removing a path that was just created succeeds and leaves every directory as it was. */
  lemma RemoveUndoesCreate(fs: Fs, at: Node, path: string, kind: Kind)
    requires Makes(fs, at, path, kind)
    ensures var fs1 := Do(fs, Create(at, path, kind)).0;
      LinksOk(fs1) && Known(fs1, at) && var (fs2, r) := Do(fs1, Remove(at, path));
        r.Ok? && forall d | d in fs.dirs :: d in fs2.dirs && fs2.dirs[d] == fs.dirs[d]
  {
    var fs1, spot := Do(fs, Create(at, path, kind)).0, Goal(fs, at, Split(path)).value;
    MadeState(fs, at, path, kind);
    DoKeepsLinks(fs, Create(at, path, kind));
    GoalKept(fs, fs1, spot.dir, spot.name, kind, at, Split(path));
    var fs2 := Do(fs1, Remove(at, path)).0;
    forall d | d in fs.dirs ensures d in fs2.dirs && fs2.dirs[d] == fs.dirs[d] {
      assert DirOk(fs, d);
      if d == spot.dir { assert fs2.dirs[d].children == fs.dirs[d].children; }
    }
  }

  // ---------------------------------------------------------------- when a change waits for itself

  /** The walk along `parts` goes down from directory `d` at part `i`, by a name that is not the last. */
  ghost predicate Passes(fs: Fs, node: Node, parts: seq<string>, d: NodeId, i: nat)
    requires LinksOk(fs) && Known(fs, node)
  {
    i + 1 < |parts| && !Special(parts[i]) && Walk(fs, node, parts[..i]) == Ok(Dir(d))
  }

  /** The walk to the last name ends in a directory that it went down from: lookups tell. */
  ghost predicate ComesBack(fs: Fs, node: Node, parts: seq<string>)
    requires LinksOk(fs) && Known(fs, node) && parts != []
  {
    exists d: NodeId, i: nat :: Passes(fs, node, parts, d, i) && Walk(fs, node, parts[..|parts| - 1]) == Ok(Dir(d))
  }

  lemma {:induction false} GoalIsWalk(fs: Fs, node: Node, parts: seq<string>)
    requires LinksOk(fs) && Known(fs, node) && parts != []
    ensures var g, w := Goal(fs, node, parts), Walk(fs, node, parts[..|parts| - 1]);
      && (g.Ok? <==> w.Ok? && w.value.Dir?) && (g.Ok? ==> g.value.dir == w.value.id)
    decreases |parts|
  {
    if node.Dir? && |parts| > 1 {
      var next := StepTo(fs, node.id, parts[0]);
      var init := parts[..|parts| - 1];
      assert init[1..] == parts[1..][..|parts[1..]| - 1] && init[0] == parts[0];
      if next.Ok? { GoalIsWalk(fs, next.value, parts[1..]); }
    }
  }

  lemma PassesNext(fs: Fs, node: Node, parts: seq<string>, d: NodeId, i: nat)
    requires LinksOk(fs) && Known(fs, node) && node.Dir? && |parts| > 1 && StepTo(fs, node.id, parts[0]).Ok?
    ensures Passes(fs, node, parts, d, i + 1) <==> Passes(fs, StepTo(fs, node.id, parts[0]).value, parts[1..], d, i)
  {
    if i + 2 < |parts| { assert parts[..i + 1][1..] == parts[1..][..i]; }
  }

  /** A directory stays read-locked exactly when the walk goes down from it. */
  lemma {:induction false} LockedIffPassed(fs: Fs, node: Node, parts: seq<string>, d: NodeId)
    requires LinksOk(fs) && Known(fs, node) && parts != [] && Goal(fs, node, parts).Ok?
    ensures d in Goal(fs, node, parts).value.locked <==> exists i: nat :: Passes(fs, node, parts, d, i)
    decreases |parts|
  {
    if |parts| > 1 {
      var next, rest := StepTo(fs, node.id, parts[0]).value, parts[1..];
      LockedIffPassed(fs, next, rest, d);
      assert parts[..0] == [];
      assert Passes(fs, node, parts, node.id, 0) <==> !Special(parts[0]);
      if i: nat :| Passes(fs, next, rest, d, i) { PassesNext(fs, node, parts, d, i); }
      if i: nat :| Passes(fs, node, parts, d, i) && i > 0 { PassesNext(fs, node, parts, d, i - 1); }
    }
  }

  lemma ComesBackIffLocked(fs: Fs, node: Node, parts: seq<string>)
    requires LinksOk(fs) && Known(fs, node) && parts != []
    ensures ComesBack(fs, node, parts) <==>
      Goal(fs, node, parts).Ok? && Goal(fs, node, parts).value.dir in Goal(fs, node, parts).value.locked
  {
    GoalIsWalk(fs, node, parts);
    if Goal(fs, node, parts).Ok? { LockedIffPassed(fs, node, parts, Goal(fs, node, parts).value.dir); }
  }

  /** A remove waits for itself if and only if its walk comes back to a directory it went down from. */
  lemma RemoveHangsIff(fs: Fs, at: Node, path: string)
    requires LinksOk(fs) && Known(fs, at)
    ensures Do(fs, Remove(at, path)).1 == Err(Hang) <==>
      ComesBack(fs, at, Split(path)) && !Special(Split(path)[|Split(path)| - 1])
  {
    ComesBackIffLocked(fs, at, Split(path));
    GoalName(fs, at, Split(path));
  }

  /** A create does if and only if, moreover, it would have added a node: the kind is supported and nothing is there. */
  lemma CreateHangsIff(fs: Fs, at: Node, path: string, kind: Kind)
    requires LinksOk(fs) && Known(fs, at)
    ensures Do(fs, Create(at, path, kind)).1 == Err(Hang) <==>
      && ComesBack(fs, at, Split(path)) && !Special(Split(path)[|Split(path)| - 1])
      && !kind.OtherKind? && Lookup(fs, at, path) == Err(NotFound)
  {
    ComesBackIffLocked(fs, at, Split(path));
    GoalName(fs, at, Split(path));
    if Goal(fs, at, Split(path)).Ok? { NothingThere(fs, at, path); }
  }

  /** A path whose last name is missing in its directory leads nowhere. */
  lemma NothingThere(fs: Fs, at: Node, path: string)
    requires LinksOk(fs) && Known(fs, at) && Goal(fs, at, Split(path)).Ok?
    ensures var spot := Goal(fs, at, Split(path)).value;
      !Special(spot.name) ==> (spot.name !in fs.dirs[spot.dir].children <==> Lookup(fs, at, path) == Err(NotFound))
  {
    WalkToGoal(fs, at, Split(path));
    LookupIsWalk(fs, at, path);
  }

  /** Without "..", a walk only goes down. */
  lemma {:induction false} DescentGrows(fs: Fs, node: Node, parts: seq<string>)
    requires LinksOk(fs) && Known(fs, node) && node.Dir? && ".." !in parts
    requires Walk(fs, node, parts).Ok? && Walk(fs, node, parts).value.Dir?
    ensures node.id <= Walk(fs, node, parts).value.id
    ensures (exists i :: 0 <= i < |parts| && !Special(parts[i])) ==> node.id < Walk(fs, node, parts).value.id
    decreases |parts|
  {
    if parts != [] {
      var next := StepTo(fs, node.id, parts[0]).value;
      if !Special(parts[0]) { assert ChildOk(fs, node.id, parts[0]); }
      if next.Dir? { DescentGrows(fs, next, parts[1..]); }
    }
  }

  lemma DescentNeverComesBack(fs: Fs, node: Node, parts: seq<string>)
    requires LinksOk(fs) && Known(fs, node) && parts != [] && ".." !in parts
    ensures !ComesBack(fs, node, parts)
  {
    var init := parts[..|parts| - 1];
    forall d: NodeId, i: nat | Passes(fs, node, parts, d, i) ensures Walk(fs, node, init) != Ok(Dir(d)) {
      assert init[..i] == parts[..i] && init[i..][0] == parts[i];
      WalkSplit(fs, node, init, i);
      if Walk(fs, node, init) == Ok(Dir(d)) { DescentGrows(fs, Dir(d), init[i..]); }
    }
  }

  lemma {:induction false} WalkSplit(fs: Fs, node: Node, parts: seq<string>, i: nat)
    requires LinksOk(fs) && Known(fs, node) && i <= |parts| && Walk(fs, node, parts[..i]).Ok?
    ensures Walk(fs, node, parts) == Walk(fs, Walk(fs, node, parts[..i]).value, parts[i..])
    decreases |parts|
  {
    if i == 0 {
      assert parts[0..] == parts;
    } else {
      assert parts[..i][1..] == parts[1..][..i - 1] && parts[i..] == parts[1..][i - 1..];
      WalkSplit(fs, StepTo(fs, node.id, parts[0]).value, parts[1..], i - 1);
    }
  }

  lemma CanonicalDescends(path: string)
    ensures ".." !in Split(Canonical(path))
  {
    ComponentsArePlain(path);
  }

  /** Creating or removing through a canonical path never waits for itself. */
  lemma CanonicalNeverHangs(fs: Fs, path: string, op: Op)
    requires LinksOk(fs) && Known(fs, op.at) && op.path == Canonical(path)
    ensures Do(fs, op).1 != Err(Hang)
  {
    CanonicalDescends(path);
    DescentNeverComesBack(fs, op.at, Split(op.path));
    if op.Create? { CreateHangsIff(fs, op.at, op.path, op.kind); } else { RemoveHangsIff(fs, op.at, op.path); }
  }

  // ---------------------------------------------------------------- what a create or remove answers

  ghost function Last(path: string): string {
    Split(path)[|Split(path)| - 1]
  }

  predicate IsName(part: string) {
    part != "" && part != "." && part != ".."
  }

  /** The node that holds the last part of a path, if the parts before it lead somewhere. */
  ghost function Holder(fs: Fs, at: Node, path: string): (r: Result<Node>)
    requires LinksOk(fs) && Known(fs, at)
    ensures r.Ok? ==> Known(fs, r.value)
  {
    Walk(fs, at, Split(path)[..|Split(path)| - 1])
  }

  /** The node is a directory with entries. */
  ghost predicate HasEntries(fs: Fs, node: Node) {
    node.Dir? && node.id in fs.dirs && fs.dirs[node.id].children != map[]
  }

  lemma {:induction false} GoalError(fs: Fs, node: Node, parts: seq<string>)
    requires LinksOk(fs) && Known(fs, node) && parts != []
    ensures var g, w := Goal(fs, node, parts), Walk(fs, node, parts[..|parts| - 1]);
      && (w.Err? ==> g == Err(w.error)) && (w.Ok? && !w.value.Dir? ==> g == Err(NotADirectory))
    decreases |parts|
  {
    if node.Dir? && |parts| > 1 {
      var next := StepTo(fs, node.id, parts[0]);
      var init := parts[..|parts| - 1];
      assert init[1..] == parts[1..][..|parts[1..]| - 1] && init[0] == parts[0];
      if next.Ok? { GoalError(fs, next.value, parts[1..]); }
    }
  }

  /** What a path leads to, by its holder. */
  lemma HolderLookup(fs: Fs, at: Node, path: string)
    requires LinksOk(fs) && Known(fs, at)
    ensures var h := Holder(fs, at, path); Lookup(fs, at, path) == if h.Err? then h else Walk(fs, h.value, [Last(path)])
  {
    var parts := Split(path);
    LookupIsWalk(fs, at, path);
    WalkOneMore(fs, at, parts[..|parts| - 1], Last(path));
    assert parts[..|parts| - 1] + [Last(path)] == parts;
  }

  /** The goal of a path is its holder and last part; the holder is locked exactly when the walk comes back to it. */
  lemma GoalIsHolder(fs: Fs, at: Node, path: string)
    requires LinksOk(fs) && Known(fs, at)
    ensures var g, h := Goal(fs, at, Split(path)), Holder(fs, at, path);
      && (h.Err? ==> g == Err(h.error)) && (h.Ok? && !h.value.Dir? ==> g == Err(NotADirectory))
      && (h.Ok? && h.value.Dir? ==> g.Ok? && g.value.dir == h.value.id && g.value.name == Last(path))
      && (g.Ok? ==> (g.value.dir in g.value.locked <==> ComesBack(fs, at, Split(path))))
  {
    GoalError(fs, at, Split(path));
    GoalIsWalk(fs, at, Split(path));
    GoalName(fs, at, Split(path));
    ComesBackIffLocked(fs, at, Split(path));
  }

  /** What `remove` answers, in the order in which the code finds out. */
  lemma RemoveAnswers(fs: Fs, at: Node, path: string)
    requires LinksOk(fs) && Known(fs, at)
    ensures var (fs1, r), h, found := Do(fs, Remove(at, path)), Holder(fs, at, path), Lookup(fs, at, path);
      && (r.Err? ==> fs1 == fs)
      && r == if h.Err? then Err(h.error)
              else if !h.value.Dir? then Err(NotADirectory)
              else if !IsName(Last(path)) then Err(InvalidInput)
              else if ComesBack(fs, at, Split(path)) then Err(Hang)
              else if found.Err? then Err(NotFound)
              else if HasEntries(fs, found.value) then Err(DirectoryNotEmpty)
              else Ok(())
  {
    GoalIsHolder(fs, at, path);
    HolderLookup(fs, at, path);
    var h := Holder(fs, at, path);
    if h.Ok? && h.value.Dir? && Last(path) in fs.dirs[h.value.id].children { assert ChildOk(fs, h.value.id, Last(path)); }
  }

  /** It succeeds if and only if the path leads to a node by a name, without coming back, and the node is no directory
      with entries. */
  lemma RemoveOkIff(fs: Fs, at: Node, path: string)
    requires LinksOk(fs) && Known(fs, at)
    ensures Do(fs, Remove(at, path)).1.Ok? <==>
      && IsName(Last(path)) && !ComesBack(fs, at, Split(path))
      && Lookup(fs, at, path).Ok? && !HasEntries(fs, Lookup(fs, at, path).value)
  {
    RemoveAnswers(fs, at, path);
    HolderLookup(fs, at, path);
  }

  /** Without coming back, taking the last name out of its directory does not disturb the way there. */
  lemma {:induction false} WayKept(fs: Fs, fs1: Fs, at: Node, parts: seq<string>, d: NodeId, i: nat)
    requires LinksOk(fs) && LinksOk(fs1) && Known(fs, at) && parts != [] && i < |parts| && !ComesBack(fs, at, parts)
    requires Walk(fs, at, parts[..|parts| - 1]) == Ok(Dir(d)) && fs1 == Removed(fs, d, parts[|parts| - 1])
    ensures Known(fs1, at) && Walk(fs1, at, parts[..i]) == Walk(fs, at, parts[..i])
  {
    if i > 0 {
      WayKept(fs, fs1, at, parts, d, i - 1);
      assert parts[..i - 1] + [parts[i - 1]] == parts[..i];
      WalkOneMore(fs, at, parts[..i - 1], parts[i - 1]);
      WalkOneMore(fs1, at, parts[..i - 1], parts[i - 1]);
      var w := Walk(fs, at, parts[..i - 1]);
      if w.Ok? && w.value.Dir? {
        assert w.value.id == d ==> !Passes(fs, at, parts, d, i - 1);
        assert StepTo(fs1, w.value.id, parts[i - 1]) == StepTo(fs, w.value.id, parts[i - 1]);
      }
    }
  }

  /** After a remove the path leads nowhere, its entry is gone, and every other entry and parent link is as it was. */
  lemma RemoveTakesOne(fs: Fs, at: Node, path: string)
    requires LinksOk(fs) && Known(fs, at) && Do(fs, Remove(at, path)).1.Ok?
    ensures var fs1, h := Do(fs, Remove(at, path)).0, Holder(fs, at, path);
      && LinksOk(fs1) && Known(fs1, at) && Lookup(fs1, at, path) == Err(NotFound)
      && h.Ok? && h.value.Dir? && fs1.dirs.Keys == fs.dirs.Keys && fs1.next == fs.next
      && forall e | e in fs.dirs ::
           && fs1.dirs[e].parent == fs.dirs[e].parent
           && fs1.dirs[e].children == if e == h.value.id then fs.dirs[e].children - {Last(path)} else fs.dirs[e].children
  {
    var fs1, parts := Do(fs, Remove(at, path)).0, Split(path);
    RemoveAnswers(fs, at, path);
    GoalIsHolder(fs, at, path);
    var d := Holder(fs, at, path).value.id;
    DoKeepsLinks(fs, Remove(at, path));
    WayKept(fs, fs1, at, parts, d, |parts| - 1);
    HolderLookup(fs1, at, path);
    assert Walk(fs1, Dir(d), [Last(path)]) == StepTo(fs1, d, Last(path));
  }

  /** What `create` answers.  A path that ends in "", "." or ".." is there already. */
  lemma CreateAnswers(fs: Fs, at: Node, path: string, kind: Kind)
    requires LinksOk(fs) && Known(fs, at)
    ensures var (fs1, r), h := Do(fs, Create(at, path, kind)), Holder(fs, at, path);
      && (r.Err? || !IsName(Last(path)) ==> fs1 == fs)
      && r == if h.Err? then Err(h.error)
              else if !h.value.Dir? then Err(NotADirectory)
              else if !IsName(Last(path)) then Ok(())
              else if Lookup(fs, at, path).Ok? then Err(AlreadyExists)
              else if kind.OtherKind? then Err(Unsupported)
              else if ComesBack(fs, at, Split(path)) then Err(Hang)
              else Ok(())
  {
    GoalIsHolder(fs, at, path);
    HolderLookup(fs, at, path);
    var h := Holder(fs, at, path);
    if h.Ok? && h.value.Dir? { assert Walk(fs, h.value, [Last(path)]) == StepTo(fs, h.value.id, Last(path)); }
  }

  /** A create adds one entry, for a new node, and a new directory is empty and below its holder. */
  lemma CreateAddsOne(fs: Fs, at: Node, path: string, kind: Kind)
    requires LinksOk(fs) && Known(fs, at) && Do(fs, Create(at, path, kind)).1.Ok? && IsName(Last(path))
    ensures var fs1, h := Do(fs, Create(at, path, kind)).0, Holder(fs, at, path);
      && h.Ok? && h.value.Dir? && h.value.id in fs1.dirs && Last(path) in fs1.dirs[h.value.id].children
      && fs1.dirs[h.value.id].children[Last(path)].id == fs.next && fs.next !in fs.dirs
      && fs1.dirs.Keys == fs.dirs.Keys + (if kind.DirKind? then {fs.next} else {})
      && (kind.DirKind? ==> fs1.dirs[fs.next] == DirData(Some(h.value.id), map[]))
      && forall e | e in fs.dirs ::
           && fs1.dirs[e].parent == fs.dirs[e].parent
           && fs1.dirs[e].children - {Last(path)} == fs.dirs[e].children - {Last(path)}
           && (e != h.value.id ==> fs1.dirs[e].children == fs.dirs[e].children)
  {
    CreateAnswers(fs, at, path, kind);
    GoalIsHolder(fs, at, path);
    var d := Holder(fs, at, path).value.id;
    assert DirOk(fs, d);
    assert fs.next in fs.dirs ==> DirOk(fs, fs.next);
  }

  function Detour(x: string, z: string): string {
    x + "/" + (".." + "/" + z)
  }

  lemma DetourParts(x: string, z: string)
    requires Plain(x) && Plain(z)
    ensures Split(Detour(x, z)) == [x] + [".."] + [z] && Split(z) == [z]
  {
    SplitPlain(x);
    SplitPlain("..");
    SplitPlain(z);
    SplitConcat("..", z);
    SplitConcat(x, ".." + "/" + z);
  }

  /** For example "x/../z", for any directory x and any new name z of any directory; creating "z" succeeds. */
  lemma DetourHangs(fs: Fs, d: NodeId, x: string, z: string, kind: Kind)
    requires LinksOk(fs) && d in fs.dirs && Plain(x) && x in fs.dirs[d].children && fs.dirs[d].children[x].Dir?
    requires Plain(z) && z !in fs.dirs[d].children && !kind.OtherKind?
    ensures Do(fs, Create(Dir(d), Detour(x, z), kind)).1 == Err(Hang)
    ensures Do(fs, Create(Dir(d), z, kind)).1 == Ok(())
  {
    DetourParts(x, z);
    assert ChildOk(fs, d, x);
    var c, parts := fs.dirs[d].children[x], [x] + [".."] + [z];
    assert parts[1..] == [".."] + [z] && parts[1..][1..] == [z];
    assert Goal(fs, c, parts[1..]) == Goal(fs, Dir(d), [z]) == Ok(Spot(d, z, {}));
    assert d in Goal(fs, Dir(d), parts).value.locked;
  }

  class RamFileSystem {
    var dirs: map<NodeId, DirData>
    var next: NodeId

    function View(): Fs
      reads this
    {
      Fs(dirs, next)
    }

    constructor ()
      ensures View() == NEW && LinksOk(View())
    {
      dirs, next := map[ROOT := DirData(None, map[])], 1;
    }

    method CreateNode(d: NodeId, name: string, kind: Kind, locked: set<NodeId>) returns (r: Result<()>)
      requires LinksOk(View()) && d in dirs && Plain(name)
      modifies this
      ensures LinksOk(View()) && (View(), r) == CreateAt(old(View()), d, name, kind, locked)
      ensures r == if name in old(dirs)[d].children then Err(AlreadyExists) else if kind.OtherKind? then Err(Unsupported)
        else if d in locked then Err(Hang) else Ok(())
      ensures r.Err? ==> View() == old(View())
    {
      if name in dirs[d].children { return Err(AlreadyExists); }
      if kind.OtherKind? { return Err(Unsupported); }
      if d in locked { return Err(Hang); }
      AddedKeepsLinks(View(), d, name, kind);
      var node := NewNode(next, name, kind);
      dirs := dirs[d := dirs[d].(children := dirs[d].children[name := node])];
      if node.Dir? { dirs := dirs[next := DirData(Some(d), map[])]; }
      next := next + 1;
      return Ok(());
    }

    method RemoveNode(d: NodeId, name: string, locked: set<NodeId>) returns (r: Result<()>)
      requires LinksOk(View()) && d in dirs && Plain(name)
      modifies this
      ensures LinksOk(View()) && (View(), r) == RemoveAt(old(View()), d, name, locked)
      ensures r == if d in locked then Err(Hang) else if name !in old(dirs)[d].children then Err(NotFound)
        else if HasEntries(old(View()), old(dirs)[d].children[name]) then Err(DirectoryNotEmpty) else Ok(())
      ensures r.Err? ==> View() == old(View())
    {
      if d in locked { return Err(Hang); }
      if name !in dirs[d].children { return Err(NotFound); }
      assert ChildOk(View(), d, name);
      var node := dirs[d].children[name];
      if node.Dir? && dirs[node.id].children != map[] { return Err(DirectoryNotEmpty); }
      RemovedKeepsLinks(View(), d, name);
      dirs := dirs[d := dirs[d].(children := dirs[d].children - {name})];
      return Ok(());
    }

    /** `poll_create` from any node, with the read locks the walk already holds. */
    method PollCreate(at: Node, path: string, kind: Kind, locked: set<NodeId>) returns (r: Result<()>)
      requires LinksOk(View()) && Known(View(), at)
      modifies this
      ensures LinksOk(View())
      ensures match Goal(old(View()), at, Split(path))
        case Err(e) => View() == old(View()) && r == Err(e)
        case Ok(spot) => (View(), r) == CreateAt(old(View()), spot.dir, spot.name, kind, locked + spot.locked)
      ensures locked == {} ==> (View(), r) == Do(old(View()), Create(at, path, kind))
      decreases |path|
    {
      if !at.Dir? { return Err(NotADirectory); }
      var (name, rest) := SplitPath(path);
      FirstName(View(), at.id, path);
      if rest.None? {
        if Special(name) { return Ok(()); }
        assert locked + {} == locked;
        r := CreateNode(at.id, name, kind, locked);
      } else {
        var step := StepTo(View(), at.id, name);
        if step.Err? { return Err(step.error); }
        var held := if Special(name) then locked else locked + {at.id};
        assert ([name] + Split(rest.value))[1..] == Split(rest.value);
        r := PollCreate(step.value, rest.value, kind, held);
      }
    }

    /** `poll_remove` from any node. */
    method PollRemove(at: Node, path: string, locked: set<NodeId>) returns (r: Result<()>)
      requires LinksOk(View()) && Known(View(), at)
      modifies this
      ensures LinksOk(View())
      ensures match Goal(old(View()), at, Split(path))
        case Err(e) => View() == old(View()) && r == Err(e)
        case Ok(spot) => (View(), r) == RemoveAt(old(View()), spot.dir, spot.name, locked + spot.locked)
      ensures locked == {} ==> (View(), r) == Do(old(View()), Remove(at, path))
      decreases |path|
    {
      if !at.Dir? { return Err(NotADirectory); }
      var (name, rest) := SplitPath(path);
      FirstName(View(), at.id, path);
      if rest.None? {
        if Special(name) { return Err(InvalidInput); }
        assert locked + {} == locked;
        r := RemoveNode(at.id, name, locked);
      } else {
        var step := StepTo(View(), at.id, name);
        if step.Err? { return Err(step.error); }
        var held := if Special(name) then locked else locked + {at.id};
        assert ([name] + Split(rest.value))[1..] == Split(rest.value);
        r := PollRemove(step.value, rest.value, held);
      }
    }
  }
}
