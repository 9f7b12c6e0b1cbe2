/**
  The operating system the repository runs on: a tree of nodes addressed by component paths,
  name resolution with symlinks, and the calls the repository makes.  Every call consumes one
  tick of the environment, whose fault tape decides whether that call fails, so a statement
  about all environments covers every point at which a run can stop.
 */
module Os {
  import opened Paths

  newtype Byte = x: int | 0 <= x < 256
  type Bytes = seq<Byte>

  datatype Option<+T> = None | Some(value: T)

  datatype Node = File(data: Bytes, perm: nat) | Dir(perm: nat) | Link(target: string)
  type Tree = map<Path, Node>

  datatype Times = Times(access: int, modified: int)

  /** Nodes and their times are kept apart, so that a statement about contents and modes does
      not have to except the times that creating a child changes. */
  datatype World = World(nodes: Tree, times: map<Path, Times>, tick: nat)

  /** What is not up to the program: which calls fail and how much a failing write transfers,
      the clock, the process umask, the order in which a directory is listed and in which a map is
      traversed, the unused name a temporary file gets, how many symlinks one resolution may
      expand, and the current directory. */
  datatype Env = Env(
    fault: nat -> bool,
    partial: nat -> nat,
    clock: nat -> int,
    masked: nat -> nat,
    listing: (Path, set<string>) -> seq<string>,
    order: set<string> -> seq<string>,
    temp: (Path, set<string>) -> string,
    maxLinks: nat,
    cwd: Path)

  ghost predicate NoFault(env: Env) {
    forall t: nat :: !env.fault(t)
  }

  /** None of n calls fails, from tick `from` on. */
  predicate NoneFails(env: Env, from: nat, n: nat) {
    forall t: nat :: from <= t < from + n ==> !env.fault(t)
  }

  lemma NoneJoin(env: Env, from: nat, n: nat, k: nat)
    ensures NoneFails(env, from, n + k) <==> NoneFails(env, from, n) && NoneFails(env, from + n, k)
    ensures NoneFails(env, from, 1) <==> !env.fault(from)
  {
  }

  predicate NoRepeats(xs: seq<string>) {
    forall i, j :: 0 <= i < j < |xs| ==> xs[i] != xs[j]
  }

  ghost predicate Lists(xs: seq<string>, s: set<string>) {
    && NoRepeats(xs)
    && (forall x :: x in xs <==> x in s)
  }

  lemma {:induction false} ListLength(xs: seq<string>, s: set<string>)
    requires Lists(xs, s)
    ensures |xs| == |s|
    decreases |xs|
  {
    if xs == [] {
      assert s == {} by {
        assert forall x :: x in s ==> x in xs;
      }
    } else {
      assert xs[0] in xs && xs == [xs[0]] + xs[1..];
      forall x
        ensures x in xs[1..] <==> x in s - {xs[0]}
      {
        assert x in xs <==> x == xs[0] || x in xs[1..];
      }
      ListLength(xs[1..], s - {xs[0]});
    }
  }

  /** Listing a directory yields each of its names once, in some order, and so does the
      traversal of a map. */
  ghost predicate FairListing(env: Env) {
    && (forall p: Path, s: set<string> :: Lists(env.listing(p, s), s))
    && (forall s: set<string> :: Lists(env.order(s), s))
  }

  /** A temporary file gets a name that is not in its directory. */
  ghost predicate FreshNames(env: Env) {
    forall p: Path, s: set<string> :: Real(env.temp(p, s)) && env.temp(p, s) !in s
  }

  function Get(m: Tree, p: Path): Option<Node> {
    if p in m then Some(m[p]) else None
  }

  predicate IsDir(m: Tree, p: Path) {
    p in m && m[p].Dir?
  }

  /** A well-formed tree: "/" is a directory and every other node hangs in a directory. */
  predicate WF(m: Tree) {
    && IsDir(m, [])
    && (forall p {:trigger Parent(p)} :: p in m && p != [] ==> IsDir(m, Parent(p)))
    && (forall p :: p in m ==> AllReal(p))
  }

  /** No component on the way to p, p included, is a symlink. */
  predicate Clear(m: Tree, p: Path) {
    forall q :: q in m && q <= p ==> !m[q].Link?
  }

  predicate NoLinks(m: Tree, p: Path) {
    forall q :: q in m && (q <= p || p <= q) ==> !m[q].Link?
  }

  // ------------------------------------------------------------------ name resolution

  /** Outcomes of resolving a name: a node (with the expansions that remain), a free name in an
      existing directory, a missing component further up, or any other error. */
  datatype Walked = Found(path: Path, left: nat) | Missing(path: Path) | Absent | Refused

  /** Resolution of the components `todo` from directory `cur`.  Unconfined (`base` is "/"), this
      is the pathname resolution of section 4.13 of POSIX.1-2017 Base Definitions; confined, it
      is the one of os.Root, which refuses an absolute target and a ".." above `base`. */
  function Walk(m: Tree, base: Path, confined: bool, cur: Path, todo: seq<string>, links: nat, follow: bool): Walked
    decreases links, |todo|
  {
    if todo == [] then Found(cur, links)
    else
      var c, rest := todo[0], todo[1..];
      if c == "" || c == "." then Walk(m, base, confined, cur, rest, links, follow)
      else if c == ".." then
        if cur == base || cur == [] then
          if confined then Refused else Walk(m, base, confined, cur, rest, links, follow)
        else Walk(m, base, confined, Parent(cur), rest, links, follow)
      else
        var next := cur + [c];
        if next !in m then (if rest == [] then Missing(next) else Absent)
        else match m[next]
          case Dir(_) => Walk(m, base, confined, next, rest, links, follow)
          case File(_, _) => if rest == [] then Found(next, links) else Refused
          case Link(target) =>
            if rest == [] && !follow then Found(next, links)
            else if links == 0 then Refused
            else if !Rooted(target) then Walk(m, base, confined, cur, Split(target) + rest, links - 1, follow)
            else if confined then Refused
            else Walk(m, base, confined, [], Split(target) + rest, links - 1, follow)
  }

  /** Resolving a name in a directory that was itself resolved, from where that began or from
      there. */
  lemma {:induction false} WalkOn(m: Tree, base: Path, confined: bool, cur: Path, a: seq<string>, b: seq<string>,
                                  links: nat, follow: bool)
    requires b != []
    requires var r := Walk(m, base, confined, cur, a, links, true); r.Found? && IsDir(m, r.path)
    ensures var r := Walk(m, base, confined, cur, a, links, true);
      Walk(m, base, confined, cur, a + b, links, follow) == Walk(m, base, confined, r.path, b, r.left, follow)
    decreases links, |a|
  {
    if a == [] {
      assert a + b == b;
    } else {
      var c, rest := a[0], a[1..];
      assert (a + b)[1..] == rest + b;
      if c == "" || c == "." {
        WalkOn(m, base, confined, cur, rest, b, links, follow);
      } else if c == ".." {
        WalkOn(m, base, confined, if cur == base || cur == [] then cur else Parent(cur), rest, b, links, follow);
      } else {
        var next := cur + [c];
        match m[next]
        case Dir(_) => WalkOn(m, base, confined, next, rest, b, links, follow);
        case Link(target) =>
          assert Split(target) + rest + b == Split(target) + (rest + b);
          WalkOn(m, base, confined, if Rooted(target) then [] else cur, Split(target) + rest, b, links - 1, follow);
      }
    }
  }

  function Locate(env: Env, m: Tree, p: Path, follow: bool): Walked {
    Walk(m, [], false, [], p, env.maxLinks, follow)
  }

  /** A path leads to the place p. */
  ghost predicate LeadsTo(env: Env, m: Tree, path: seq<string>, p: Path) {
    var r := Locate(env, m, path, true);
    r.Found? && r.path == p
  }

  // ------------------------------------------------------------------ calls

  datatype Outcome = Outcome(w: World, ok: bool)

  function Tick(w: World): World {
    w.(tick := w.tick + 1)
  }

  function Stamp(times: map<Path, Times>, p: Path, now: int): map<Path, Times> {
    times[p := Times(if p in times then times[p].access else now, now)]
  }

  /** A node is written; a new one also changes its directory. */
  function Put(env: Env, w: World, q: Path, node: Node): World
    requires q != []
  {
    var now := env.clock(w.tick);
    var times := Stamp(w.times, q, now);
    World(w.nodes[q := node], if q in w.nodes then times else Stamp(times, Parent(q), now), w.tick + 1)
  }

  datatype Status = Exists(node: Node) | NotExist | StatError

  function StatusOf(m: Tree, r: Walked): Status {
    match r
    case Found(q, _) => if q in m then Exists(m[q]) else StatError
    case Missing(_) => NotExist
    case Absent => NotExist
    case Refused => StatError
  }

  /** os.Stat; the caller consumes the tick. */
  function Stat(env: Env, w: World, p: Path): Status {
    if env.fault(w.tick) then StatError else StatusOf(w.nodes, Locate(env, w.nodes, p, true))
  }

  function Mkdir(env: Env, w: World, p: Path, perm: nat): Outcome {
    if env.fault(w.tick) then Outcome(Tick(w), false) else MkdirAt(env, w, Locate(env, w.nodes, p, false), perm)
  }

  function MkdirAt(env: Env, w: World, at: Walked, perm: nat): Outcome {
    match at
    case Missing(q) =>
      if q == [] then Outcome(Tick(w), false) else Outcome(Put(env, w, q, Dir(env.masked(perm))), true)
    case _ => Outcome(Tick(w), false)
  }

  predicate IsDirEntry(env: Env, m: Tree, p: Path) {
    var at := Locate(env, m, p, false);
    at.Found? && IsDir(m, at.path)
  }

  /** Mkdir as os.MkdirAll uses it: after a failure Lstat decides whether the directory is there. */
  function MkdirChecked(env: Env, w: World, p: Path, perm: nat): Outcome {
    var r := Mkdir(env, w, p, perm);
    if r.ok then r else Outcome(Tick(r.w), !env.fault(r.w.tick) && IsDirEntry(env, r.w.nodes, p))
  }

  /** os.MkdirAll: what Stat finds decides; if it finds nothing or fails, the parent first, then the
      directory itself. */
  function MkdirAll(env: Env, w: World, p: Path, perm: nat): Outcome
    decreases |p|
  {
    var at := Locate(env, w.nodes, p, true);
    if !env.fault(w.tick) && at.Found? then Outcome(Tick(w), IsDir(w.nodes, at.path))
    else
      var up := if p == [] then Outcome(Tick(w), true) else MkdirAll(env, Tick(w), Parent(p), perm);
      if up.ok then MkdirChecked(env, up.w, p, perm) else up
  }

  function Chmod(env: Env, w: World, p: Path, perm: nat): Outcome {
    if env.fault(w.tick) then Outcome(Tick(w), false)
    else
      var at := Locate(env, w.nodes, p, true);
      if at.Found? && at.path in w.nodes && !w.nodes[at.path].Link? then
        Outcome(Tick(w).(nodes := w.nodes[at.path := w.nodes[at.path].(perm := perm)]), true)
      else Outcome(Tick(w), false)
  }

  function Chtimes(env: Env, w: World, p: Path, times: Times): Outcome {
    if env.fault(w.tick) then Outcome(Tick(w), false)
    else
      var at := Locate(env, w.nodes, p, true);
      if at.Found? && at.path in w.nodes then
        Outcome(Tick(w).(times := w.times[at.path := times]), true)
      else Outcome(Tick(w), false)
  }

  datatype Opened = Opened(w: World, file: Option<Path>)

  /** os.OpenFile with O_CREATE and O_TRUNC: an existing file is emptied and keeps its mode, a
      free name becomes an empty file. */
  function OpenFile(env: Env, w: World, p: Path, perm: nat): Opened {
    if env.fault(w.tick) then Opened(Tick(w), None) else OpenAt(env, w, Locate(env, w.nodes, p, true), perm)
  }

  function OpenAt(env: Env, w: World, at: Walked, perm: nat): Opened {
    match at
    case Found(q, _) =>
      if q in w.nodes && w.nodes[q].File? && q != []
      then Opened(Put(env, w, q, File([], w.nodes[q].perm)), Some(q))
      else Opened(Tick(w), None)
    case Missing(q) =>
      if q == [] then Opened(Tick(w), None)
      else Opened(Put(env, w, q, File([], env.masked(perm))), Some(q))
    case _ => Opened(Tick(w), None)
  }

  function Min(a: int, b: int): int {
    if a < b then a else b
  }

  /** A write appends to the open file; a failing one may have transferred a part. */
  function Write(env: Env, w: World, q: Path, data: Bytes): Outcome {
    if q == [] || q !in w.nodes || !w.nodes[q].File? then Outcome(Tick(w), false)
    else
      var f := w.nodes[q];
      if env.fault(w.tick) then
        Outcome(Put(env, w, q, f.(data := f.data + data[..Min(env.partial(w.tick), |data|)])), false)
      else Outcome(Put(env, w, q, f.(data := f.data + data)), true)
  }

  /** What an open file holds. */
  function Contents(m: Tree, q: Path): Bytes {
    if q in m && m[q].File? then m[q].data else []
  }

  /** A call that changes no node: closing a file, opening one for reading, and so on. */
  function Touchless(env: Env, w: World): Outcome {
    Outcome(Tick(w), !env.fault(w.tick))
  }

  /** os.CreateTemp in directory p. */
  function CreateTemp(env: Env, w: World, p: Path): Opened {
    var at := Locate(env, w.nodes, p, true);
    if env.fault(w.tick) || !at.Found? || !IsDir(w.nodes, at.path) then Opened(Tick(w), None)
    else
      var q := at.path + [env.temp(at.path, Names(w.nodes, at.path))];
      Opened(Put(env, w, q, File([], env.masked(384))), Some(q))  // 0600
  }

  /** os.OpenFile with O_CREATE and O_EXCL. */
  function CreateNew(env: Env, w: World, p: Path, perm: nat): Opened {
    var at := Locate(env, w.nodes, p, false);
    if env.fault(w.tick) || !at.Missing? || at.path == [] then Opened(Tick(w), None)
    else Opened(Put(env, w, at.path, File([], env.masked(perm))), Some(at.path))
  }

  /** os.Remove of a file or symlink. */
  function Remove(env: Env, w: World, p: Path): Outcome {
    var at := Locate(env, w.nodes, p, false);
    if env.fault(w.tick) || !at.Found? || at.path !in w.nodes || w.nodes[at.path].Dir? then Outcome(Tick(w), false)
    else Outcome(Tick(w).(nodes := w.nodes - {at.path}), true)
  }

  /** os.Rename of a file: it replaces what is at the new path, a symlink included, but not a
      directory. */
  function Rename(env: Env, w: World, p: Path, q: Path): Outcome {
    var from, to := Locate(env, w.nodes, p, false), Locate(env, w.nodes, q, false);
    if env.fault(w.tick) || !from.Found? || from.path !in w.nodes || w.nodes[from.path].Dir?
    then Outcome(Tick(w), false)
    else if to.Missing? || (to.Found? && !IsDir(w.nodes, to.path)) then
      Outcome(Tick(w).(nodes := (w.nodes - {from.path})[to.path := w.nodes[from.path]]), true)
    else Outcome(Tick(w), false)
  }

  function Without(m: Tree, p: Path): Tree {
    map q | q in m && !(p <= q) :: m[q]
  }

  /** os.RemoveAll, which does not follow a symlink at the end of the path. */
  function RemoveAll(env: Env, w: World, p: Path): World {
    var at := Locate(env, w.nodes, p, false);
    if at.Found? && at.path != [] then Tick(w).(nodes := Without(w.nodes, at.path)) else Tick(w)
  }

  // ------------------------------------------------------------------ calls with a path text

  /** The components a path text is resolved by, as it is written. */
  function RawPath(cwd: Path, s: string): seq<string> {
    (if Rooted(s) then [] else cwd) + Split(s)
  }

  /** os.Stat of a path text; the caller consumes the tick. */
  function StatText(env: Env, w: World, s: string): Status {
    if env.fault(w.tick) then StatError
    else if s == "" then NotExist
    else StatusOf(w.nodes, Locate(env, w.nodes, RawPath(env.cwd, s), true))
  }

  function Untrailed(cs: seq<string>): seq<string> {
    if cs != [] && cs[|cs| - 1] == "" then Untrailed(cs[..|cs| - 1]) else cs
  }

  /** The components that os.RemoveAll resolves: trailing slashes are dropped. */
  function RemovePath(cwd: Path, s: string): seq<string> {
    (if Rooted(s) then [] else cwd) + Untrailed(Split(s))
  }

  function Emptied(m: Tree, p: Path): Tree {
    map q | q in m && !(p < q) :: m[q]
  }

  /** os.RemoveAll of a path text.  A text that ends in "." is refused.  The last component is not
      followed; if it is "." (before a slash) or "..", what it leads to is emptied and stays. */
  function RemoveText(env: Env, m: Tree, s: string): Tree {
    var cs := Untrailed(Split(s));
    if cs == [] || Last(Split(s)) == "." then m
    else if Real(Last(cs)) then
      var at := Locate(env, m, RemovePath(env.cwd, s), false);
      if at.Found? && at.path != [] then Without(m, at.path) else m
    else
      var at := Locate(env, m, RemovePath(env.cwd, s), true);
      if at.Found? && IsDir(m, at.path) then Emptied(m, at.path) else m
  }

  function RemoveAllText(env: Env, w: World, s: string): World {
    Tick(w).(nodes := RemoveText(env, w.nodes, s))
  }

  /** The names in directory p. */
  function Names(m: Tree, p: Path): set<string> {
    set q | q in m && |q| == |p| + 1 && p <= q :: q[|p|]
  }

  // ------------------------------------------------------------------ facts about trees

  lemma ParentPrefix(q: Path, p: Path)
    requires q <= p && q != p
    ensures p != [] && q <= Parent(p)
  {
    assert Parent(p)[..|q|] == p[..|q|];
  }

  lemma {:induction false} Ancestors(m: Tree, q: Path, p: Path)
    requires WF(m) && p in m && q <= p
    ensures q in m && (q != p ==> m[q].Dir?)
    decreases |p|
  {
    if q != p {
      ParentPrefix(q, p);
      Ancestors(m, q, Parent(p));
    }
  }

  /** No symlink has to be followed on the way to p; one at p itself is not, by Lstat and the
      like. */
  predicate ClearWay(m: Tree, p: Path, follow: bool) {
    forall q :: q in m && q <= p && m[q].Link? ==> q == p && !follow
  }

  /** Without symlinks on the way, resolution finds exactly the node with that path; for a
      missing one it says whether the directory is there, and whether a file is in the way. */
  lemma {:induction false} WalkClear(m: Tree, cur: Path, todo: seq<string>, links: nat, follow: bool)
    requires WF(m) && AllReal(todo) && IsDir(m, cur) && ClearWay(m, cur + todo, follow)
    ensures var r, p := Walk(m, [], false, cur, todo, links, follow), cur + todo;
      && (p in m ==> r == Found(p, links))
      && (p !in m ==> p != [])
      && (p !in m && IsDir(m, Parent(p)) ==> r == Missing(p))
      && (p !in m && !IsDir(m, Parent(p)) ==> r == Absent || r == Refused)
      && (p !in m ==> (r == Refused <==> exists q :: q in m && q <= p && m[q].File?))
    decreases |todo|
  {
    var p := cur + todo;
    if todo == [] {
      assert p == cur;
    } else {
      var next, rest := cur + [todo[0]], todo[1..];
      assert next + rest == p;
      assert next <= p;
      assert rest == [] ==> p == next && Parent(p) == cur;
      if IsDir(m, next) {
        WalkClear(m, next, rest, links, follow);
      } else if next in m {
        assert m[next].Link? ==> next == p && !follow;
        NoneBelow(m, next, p);
      } else {
        NoneBelow(m, next, p);
        forall q | q in m && q <= p
          ensures !m[q].File?
        {
          if |q| <= |cur| {
            assert q == p[..|q|] == cur[..|q|];
            Ancestors(m, q, cur);
          } else {
            assert q[..|next|] == p[..|next|] == next;
            Ancestors(m, next, q);
          }
        }
      }
    }
  }

  lemma NoneBelow(m: Tree, next: Path, p: Path)
    requires WF(m) && next <= p && next != [] && !IsDir(m, next)
    ensures p in m ==> p == next
    ensures p != next ==> !IsDir(m, Parent(p))
  {
    if p in m {
      Ancestors(m, next, p);
    }
    if p != next {
      ParentPrefix(next, p);
      if Parent(p) in m {
        Ancestors(m, next, Parent(p));
      }
    }
  }

  /** A free name is in a directory that exists. */
  lemma {:induction false} MissingIsFree(m: Tree, cur: Path, todo: seq<string>, links: nat, follow: bool)
    requires WF(m) && IsDir(m, cur) && NoSlashes(todo)
    ensures var r := Walk(m, [], false, cur, todo, links, follow);
      && (r.Missing? ==> r.path !in m && r.path != [] && IsDir(m, Parent(r.path)) && AllReal(r.path))
      && (r.Found? ==> r.path in m && (follow ==> !m[r.path].Link?))
    decreases links, |todo|
  {
    hide AllReal;
    if todo != [] {
      var c, rest := todo[0], todo[1..];
      if c == "" || c == "." {
        MissingIsFree(m, cur, rest, links, follow);
      } else if c == ".." {
        MissingIsFree(m, if cur == [] then cur else Parent(cur), rest, links, follow);
      } else if cur + [c] in m {
        match m[cur + [c]]
        case Dir(_) => MissingIsFree(m, cur + [c], rest, links, follow);
        case File(_, _) =>
        case Link(target) =>
          if links > 0 && !(rest == [] && !follow) {
            MissingIsFree(m, if Rooted(target) then [] else cur, Split(target) + rest, links - 1, follow);
          }
      } else {
        ChildIsReal(m, cur, c);
      }
    }
  }

  lemma ChildIsReal(m: Tree, p: Path, name: string)
    requires WF(m) && p in m && Real(name)
    ensures AllReal(p + [name]) && Parent(p + [name]) == p
  {
  }

  lemma LookUp(env: Env, m: Tree, p: Path, follow: bool)
    requires WF(m) && AllReal(p)
    ensures var r := Locate(env, m, p, follow);
      && (r.Missing? ==> r.path !in m && r.path != [] && IsDir(m, Parent(r.path)) && AllReal(r.path))
      && (r.Found? ==> r.path in m && (follow ==> !m[r.path].Link?))
  {
    MissingIsFree(m, [], p, env.maxLinks, follow);
  }

  /** Resolution of a path depends on the nodes at its prefixes only. */
  ghost predicate SameOnWay(m: Tree, m2: Tree, p: Path) {
    forall q {:trigger Get(m, q)} {:trigger Get(m2, q)} :: q <= p ==> Get(m, q) == Get(m2, q)
  }

  lemma {:induction false} WalkSame(m: Tree, m2: Tree, cur: Path, todo: seq<string>, links: nat, follow: bool)
    requires AllReal(todo) && Clear(m, cur + todo) && SameOnWay(m, m2, cur + todo)
    ensures Walk(m, [], false, cur, todo, links, follow) == Walk(m2, [], false, cur, todo, links, follow)
    decreases |todo|
  {
    if todo != [] {
      var next := cur + [todo[0]];
      assert next + todo[1..] == cur + todo;
      assert next <= cur + todo;
      assert Get(m, next) == Get(m2, next);
      if IsDir(m, next) {
        WalkSame(m, m2, next, todo[1..], links, follow);
      }
    }
  }

  lemma LocateClear(env: Env, m: Tree, p: Path, follow: bool)
    requires WF(m) && AllReal(p) && Clear(m, p)
    ensures var r := Locate(env, m, p, follow);
      && (p in m ==> r == Found(p, env.maxLinks))
      && (p !in m ==> p != [])
      && (p !in m && IsDir(m, Parent(p)) ==> r == Missing(p))
      && (p !in m && !IsDir(m, Parent(p)) ==> r == Absent || r == Refused)
      && (p !in m ==> (r == Refused <==> exists q :: q in m && q <= p && m[q].File?))
  {
    assert [] + p == p;
    WalkClear(m, [], p, env.maxLinks, follow);
  }

  /** The same for a path whose last component may be a symlink that is not followed. */
  lemma LocateEntry(env: Env, m: Tree, p: Path)
    requires WF(m) && AllReal(p) && p != [] && Clear(m, Parent(p))
    ensures var r := Locate(env, m, p, false);
      && (p in m ==> r == Found(p, env.maxLinks))
      && (p !in m && IsDir(m, Parent(p)) ==> r == Missing(p))
      && (p !in m && !IsDir(m, Parent(p)) ==> r == Absent || r == Refused)
  {
    assert [] + p == p;
    forall q | q in m && q <= p && m[q].Link?
      ensures q == p
    {
      if q != p {
        ParentPrefix(q, p);
      }
    }
    WalkClear(m, [], p, env.maxLinks, false);
  }

  lemma LocateSame(env: Env, m: Tree, m2: Tree, p: Path, follow: bool)
    requires AllReal(p) && Clear(m, p) && SameOnWay(m, m2, p)
    ensures Locate(env, m, p, follow) == Locate(env, m2, p, follow)
  {
    assert [] + p == p;
    WalkSame(m, m2, [], p, env.maxLinks, follow);
  }

  // ------------------------------------------------------------------ what the calls do

  lemma PutWF(m: Tree, q: Path, node: Node)
    requires WF(m) && q != [] && AllReal(q) && IsDir(m, Parent(q))
    requires q in m ==> (m[q].Dir? <==> node.Dir?)
    ensures WF(m[q := node])
  {
    var m2 := m[q := node];
    forall p | p in m2 && p != []
      ensures IsDir(m2, Parent(p))
    {
      if p in m {
        assert IsDir(m, Parent(p));
      }
    }
  }

  /** m2 is m with some missing directories on the way to p. */
  predicate MadeDirs(m: Tree, m2: Tree, p: Path, perm: nat) {
    && (forall q :: q in m ==> q in m2 && m2[q] == m[q])
    && (forall q :: q in m2 && q !in m ==> q <= p && m2[q] == Dir(perm))
  }

  predicate DirsOnWay(m: Tree, p: Path) {
    forall q :: q in m && q <= p ==> m[q].Dir?
  }

  /** The last step of MkdirAll, in a tree that has had directories made on the way. */
  lemma MkdirCheckedEffect(env: Env, m: Tree, w: World, p: Path, perm: nat)
    requires WF(m) && AllReal(p) && Clear(m, p) && WF(w.nodes) && MadeDirs(m, w.nodes, p, env.masked(perm))
    requires p != [] ==> IsDir(w.nodes, Parent(p))
    ensures var r := MkdirChecked(env, w, p, perm);
      && WF(r.w.nodes)
      && MadeDirs(m, r.w.nodes, p, env.masked(perm))
      && (r.ok ==> IsDir(r.w.nodes, p))
      && (r.w.nodes == w.nodes || (p !in w.nodes && r.ok && r.w.nodes == w.nodes[p := Dir(env.masked(perm))]))
      && (NoFault(env) ==> (r.ok <==> p !in w.nodes || IsDir(w.nodes, p)))
  {
    hide Walk;
    LocateClear(env, w.nodes, p, false);
    if p !in w.nodes {
      PutWF(w.nodes, p, Dir(env.masked(perm)));
    }
  }

  lemma {:induction false} MkdirAllEffect(env: Env, w: World, p: Path, perm: nat)
    requires WF(w.nodes) && AllReal(p) && Clear(w.nodes, p)
    ensures var r := MkdirAll(env, w, p, perm);
      && WF(r.w.nodes)
      && MadeDirs(w.nodes, r.w.nodes, p, env.masked(perm))
      && (r.ok ==> IsDir(r.w.nodes, p))
      && (NoFault(env) ==> (r.ok <==> DirsOnWay(w.nodes, p)))
    decreases |p|
  {
    hide Walk, MkdirChecked;
    var m := w.nodes;
    LocateClear(env, m, p, true);
    if !env.fault(w.tick) && p in m {
      forall q | q in m && q <= p
        ensures q != p ==> m[q].Dir?
      {
        Ancestors(m, q, p);
      }
    } else if p == [] {
      MkdirCheckedEffect(env, m, Tick(w), p, perm);
    } else {
      MkdirParent(env, w, p, perm);
    }
  }

  lemma ClearParent(m: Tree, p: Path)
    requires Clear(m, p) && AllReal(p) && p != []
    ensures Clear(m, Parent(p)) && AllReal(Parent(p))
    ensures DirsOnWay(m, p) ==> DirsOnWay(m, Parent(p))
    ensures p !in m && DirsOnWay(m, Parent(p)) ==> DirsOnWay(m, p)
  {
    assert Parent(p) <= p;
    assert forall q {:trigger q in m} :: q <= Parent(p) ==> q <= p;
    forall q | q in m && q <= p
      ensures q != p ==> q <= Parent(p)
    {
      if q != p {
        ParentPrefix(q, p);
      }
    }
  }

  lemma {:induction false} MkdirParent(env: Env, w: World, p: Path, perm: nat)
    requires WF(w.nodes) && AllReal(p) && Clear(w.nodes, p) && p != []
    requires env.fault(w.tick) || p !in w.nodes
    ensures var r := MkdirAll(env, w, p, perm);
      && WF(r.w.nodes)
      && MadeDirs(w.nodes, r.w.nodes, p, env.masked(perm))
      && (r.ok ==> IsDir(r.w.nodes, p))
      && (NoFault(env) ==> (r.ok <==> DirsOnWay(w.nodes, p)))
    decreases |p|, 0
  {
    hide Walk, MkdirChecked;
    var m, up := w.nodes, Parent(p);
    LocateClear(env, m, p, true);
    ClearParent(m, p);
    MkdirAllEffect(env, Tick(w), up, perm);
    var r := MkdirAll(env, Tick(w), up, perm);
    MadeWider(m, r.w.nodes, p, env.masked(perm));
    if r.ok {
      MkdirCheckedEffect(env, m, r.w, p, perm);
    }
  }

  lemma MadeWider(m: Tree, m2: Tree, p: Path, perm: nat)
    requires p != [] && MadeDirs(m, m2, Parent(p), perm)
    ensures MadeDirs(m, m2, p, perm) && (p in m2 <==> p in m)
  {
    assert Parent(p) <= p;
    assert forall q {:trigger q in m2} :: q <= Parent(p) ==> q <= p && q != p;
  }

  lemma SameOnWayUp(m: Tree, m2: Tree, up: Path, p: Path)
    requires up <= p && SameOnWay(m, m2, p)
    ensures SameOnWay(m, m2, up)
  {
    forall q | q <= up
      ensures Get(m, q) == Get(m2, q)
    {
      assert q == up[..|q|] == p[..|q|];
    }
  }

  lemma OpenFileEffect(env: Env, w: World, p: Path, perm: nat)
    requires WF(w.nodes) && AllReal(p) && Clear(w.nodes, p) && p != []
    ensures var r, m := OpenFile(env, w, p, perm), w.nodes;
      && (r.file.None? ==> r.w.nodes == m)
      && (r.file.Some? ==>
            && r.file.value == p && IsDir(m, Parent(p)) && !IsDir(m, p)
            && r.w.nodes == m[p := File([], if p in m then m[p].perm else env.masked(perm))])
      && (NoFault(env) ==> (r.file.Some? <==> IsDir(m, Parent(p)) && !IsDir(m, p)))
  {
    LocateClear(env, w.nodes, p, true);
  }

  lemma ChmodEffect(env: Env, w: World, p: Path, perm: nat)
    requires WF(w.nodes) && AllReal(p) && Clear(w.nodes, p)
    ensures var r, m := Chmod(env, w, p, perm), w.nodes;
      && (!r.ok ==> r.w.nodes == m)
      && (r.ok ==> p in m && r.w.nodes == m[p := m[p].(perm := perm)])
      && (r.ok <==> !env.fault(w.tick) && p in m)
  {
    LocateClear(env, w.nodes, p, true);
    assert p <= p;
  }

  lemma WriteEffect(env: Env, w: World, q: Path, data: Bytes)
    requires q != [] && q in w.nodes && w.nodes[q].File?
    ensures var r, m := Write(env, w, q, data), w.nodes;
      && q in r.w.nodes && r.w.nodes[q].File? && r.w.nodes[q].perm == m[q].perm
      && r.w.nodes == m[q := r.w.nodes[q]]
      && (r.ok ==> r.w.nodes[q].data == m[q].data + data)
      && (NoFault(env) ==> r.ok)
  {
  }

  lemma ChtimesEffect(env: Env, w: World, p: Path, times: Times)
    requires WF(w.nodes) && AllReal(p) && Clear(w.nodes, p)
    ensures var r := Chtimes(env, w, p, times);
      && r.w.nodes == w.nodes
      && (r.ok ==> r.w.times == w.times[p := times])
      && (r.ok <==> !env.fault(w.tick) && p in w.nodes)
  {
    LocateClear(env, w.nodes, p, true);
  }
}
