/**
  internal/helpers/copydir_confined.go: the recursive copy whose reads are confined to a root.
 */
module Confined {
  import opened Paths
  import opened Os
  import opened Frames

  /** What is copied from: the tree as it stands, the confinement root in it, and how many
      symlinks may still be expanded below the directory that was opened. */
  datatype Source = Source(tree: Tree, base: Path, left: nat)

  // ------------------------------------------------------------------ the copy, call by call

  /** r.Stat of the entry k of an open directory. */
  ghost function Resolve(s: Source, k: Path): Option<Node> {
    if k == [] then None
    else
      var t := Walk(s.tree, s.base, true, Parent(k), [Last(k)], s.left, true);
      if t.Found? then Get(s.tree, t.path) else None
  }

  /** The open file q at path dst receives the contents, then dst the mode. */
  ghost function Fill(env: Env, f: Node, dst: Path, q: Path, w: World): Outcome
    requires f.File?
  {
    var c := Write(env, w, q, f.data);
    if c.ok then Chmod(env, c.w, dst, f.perm) else c
  }

  ghost function CopyFile(env: Env, f: Node, dst: Path, w: World): Outcome
    requires f.File?
  {
    var src := Touchless(env, w);
    if !src.ok then src
    else
      var o := OpenFile(env, src.w, dst, f.perm);
      if o.file.None? then Outcome(o.w, false)
      else Fill(env, f, dst, o.file.value, o.w)
  }

  ghost function Below(m: Tree, at: Path): set<Path> {
    set k | k in m && at < k
  }

  lemma BelowShrinks(m: Tree, at: Path, name: string)
    requires at + [name] in m
    ensures Below(m, at + [name]) < Below(m, at)
  {
    var k := at + [name];
    assert k in Below(m, at) && k !in Below(m, k);
    forall q | q in Below(m, k)
      ensures q in Below(m, at)
    {
      assert at == k[..|at|] == q[..|at|];
    }
  }

  /** os.MkdirAll and os.Chmod of the destination directory. */
  ghost function MakeDst(env: Env, dst: Path, perm: nat, w: World): Outcome {
    var made := MkdirAll(env, w, dst, perm);
    if made.ok then Chmod(env, made.w, dst, perm) else made
  }

  /** r.Open and ReadDir. */
  ghost function ReadDir(env: Env, w: World): Outcome {
    var dir := Touchless(env, w);
    if dir.ok then Touchless(env, dir.w) else dir
  }

  ghost function CopyDir(env: Env, s: Source, at: Path, dst: Path, perm: nat, w: World): Outcome
    decreases Below(s.tree, at), 2
  {
    var made := MakeDst(env, dst, perm, w);
    if !made.ok then made
    else
      var read := ReadDir(env, made.w);
      if read.ok then CopyEntries(env, s, at, dst, env.listing(at, Names(s.tree, at)), read.w) else read
  }

  ghost function CopyEntries(env: Env, s: Source, at: Path, dst: Path, names: seq<string>, w: World): Outcome
    decreases Below(s.tree, at), 1, |names|
  {
    if names == [] then Outcome(w, true)
    else
      var r := CopyEntry(env, s, at, dst, names[0], w);
      if r.ok then CopyEntries(env, s, at, dst, names[1..], r.w) else r
  }

  ghost function CopyEntry(env: Env, s: Source, at: Path, dst: Path, name: string, w: World): Outcome
    decreases Below(s.tree, at), 0
  {
    var k := at + [name];
    var lstat := Touchless(env, w);
    if !lstat.ok || k !in s.tree then Outcome(lstat.w, false)
    else match s.tree[k]
      case Link(_) =>
        var stat := Touchless(env, lstat.w);
        var target := Resolve(s, k);
        if !stat.ok || target.None? || !target.value.File? then Outcome(stat.w, false)
        else CopyFile(env, target.value, dst + [name], stat.w)
      case Dir(perm) =>
        BelowShrinks(s.tree, at, name);
        CopyDir(env, s, k, dst + [name], perm, lstat.w)
      case File(_, _) =>
        CopyFile(env, s.tree[k], dst + [name], lstat.w)
  }

  // ------------------------------------------------------------------ what every run keeps

  /** Inside an existing directory, what a child keeps its parent keeps. */
  lemma KeepsUp(m: Tree, m2: Tree, dst: Path, name: string)
    requires WF(m) && NoLinks(m, dst) && IsDir(m, dst)
    requires Keeps(m, m2, dst + [name])
    ensures Keeps(m, m2, dst)
    ensures Get(m2, dst) == Get(m, dst)
    ensures forall p {:trigger Get(m2, p)} :: dst + [name] <= p || Get(m2, p) == Get(m, p)
  {
    var d := dst + [name];
    forall p
      ensures d <= p || Get(m2, p) == Get(m, p)
    {
      assert d <= p || Get(m2, p) == Get(m, p) || (p < d && p !in m && IsDir(m2, p));
      if p < d {
        assert d[..|dst|] == dst;
        assert p == d[..|p|] == dst[..|p|];
        Ancestors(m, p, dst);
      }
    }
    assert !(d <= dst);
    assert Get(m2, dst) == Get(m, dst);
    forall p | p in m2 && (p <= dst || dst <= p)
      ensures !m2[p].Link?
    {
      if !(d <= p) {
        assert Get(m2, p) == Get(m, p);
      }
    }
    forall p
      ensures dst <= p || Get(m2, p) == Get(m, p)
    {
      assert d <= p || Get(m2, p) == Get(m, p);
      if d <= p {
        assert dst == d[..|dst|] == p[..|dst|];
      }
    }
  }

  lemma CopyFileEffect(env: Env, f: Node, dst: Path, w: World)
    requires f.File? && WF(w.nodes) && NoLinks(w.nodes, dst) && AllReal(dst) && dst != []
    ensures var r, m := CopyFile(env, f, dst, w), w.nodes;
      && Keeps(m, r.w.nodes, dst)
      && (r.ok ==> r.w.nodes == m[dst := f])
      && (r.ok ==> IsDir(m, Parent(dst)) && !IsDir(m, dst))
      && (NoFault(env) ==> (r.ok <==> IsDir(m, Parent(dst)) && !IsDir(m, dst)))
  {
    var m := w.nodes;
    if !env.fault(w.tick) {
      OpenFileEffect(env, Tick(w), dst, f.perm);
      var o := OpenFile(env, Tick(w), dst, f.perm);
      if o.file.Some? {
        FillNodes(env, m, f, dst, o.w);
        var r := Fill(env, f, dst, dst, o.w);
        FileKeeps(m, dst, r.w.nodes[dst]);
      }
    }
  }

  /** Filling a file that was just opened changes that one node. */
  lemma FillNodes(env: Env, m: Tree, f: Node, dst: Path, w: World)
    requires f.File? && WF(m) && Clear(m, dst) && AllReal(dst) && dst != []
    requires IsDir(m, Parent(dst)) && !IsDir(m, dst)
    requires dst in w.nodes && w.nodes[dst].File? && w.nodes[dst].data == []
    requires w.nodes == m[dst := w.nodes[dst]]
    ensures var r := Fill(env, f, dst, dst, w);
      && dst in r.w.nodes && r.w.nodes[dst].File?
      && r.w.nodes == m[dst := r.w.nodes[dst]]
      && (r.ok ==> r.w.nodes[dst] == f)
      && (NoFault(env) ==> r.ok)
  {
    WriteEffect(env, w, dst, f.data);
    var c := Write(env, w, dst, f.data);
    var g := c.w.nodes[dst];
    assert c.w.nodes == m[dst := g];
    if c.ok {
      assert [] + f.data == f.data;
      PutWF(m, dst, g);
      ChmodEffect(env, c.w, dst, f.perm);
      assert m[dst := g][dst := f] == m[dst := f];
    }
  }

  lemma MakeDstEffect(env: Env, dst: Path, perm: nat, w: World)
    requires WF(w.nodes) && NoLinks(w.nodes, dst) && AllReal(dst)
    ensures var r, m := MakeDst(env, dst, perm, w), w.nodes;
      && Keeps(m, r.w.nodes, dst)
      && (r.ok ==> Prepared(env, m, r.w.nodes, dst, perm))
      && (NoFault(env) ==> (r.ok <==> DirsOnWay(m, dst)))
  {
    var m := w.nodes;
    MkdirAllEffect(env, w, dst, perm);
    var made := MkdirAll(env, w, dst, perm);
    MadeKeeps(m, made.w.nodes, dst, env.masked(perm));
    if made.ok {
      ChmodEffect(env, made.w, dst, perm);
      MadePrepared(env, m, made.w.nodes, dst, perm);
    }
  }

  lemma MadePrepared(env: Env, m: Tree, m1: Tree, dst: Path, perm: nat)
    requires WF(m1) && NoLinks(m, dst) && IsDir(m1, dst) && MadeDirs(m, m1, dst, env.masked(perm))
    ensures Keeps(m, m1[dst := Dir(perm)], dst)
    ensures Prepared(env, m, m1[dst := Dir(perm)], dst, perm)
  {
    var m2 := m1[dst := Dir(perm)];
    DirKeepsWF(m1, dst, perm);
    forall p
      ensures p < dst ==> p in m1
    {
      if p < dst {
        Ancestors(m1, p, dst);
      }
    }
  }

  /** m2 is m with the directory dst of the given mode, and the missing ones on the way to it. */
  ghost predicate Prepared(env: Env, m: Tree, m2: Tree, dst: Path, perm: nat) {
    forall p {:trigger Get(m2, p)} :: Get(m2, p) ==
      if p == dst then Some(Dir(perm))
      else if p in m then Some(m[p])
      else if p < dst then Some(Dir(env.masked(perm)))
      else None
  }

  ghost predicate Ready(env: Env, s: Source, dst: Path, w: World) {
    && FairListing(env) && WF(s.tree)
    && WF(w.nodes) && NoLinks(w.nodes, dst) && AllReal(dst)
  }

  lemma {:induction false} DirKeeps(env: Env, s: Source, at: Path, dst: Path, perm: nat, w: World)
    requires Ready(env, s, dst, w)
    ensures Keeps(w.nodes, CopyDir(env, s, at, dst, perm, w).w.nodes, dst)
    decreases Below(s.tree, at), 2
  {
    MakeDstEffect(env, dst, perm, w);
    var made := MakeDst(env, dst, perm, w);
    if made.ok && ReadDir(env, made.w).ok {
      assert Get(made.w.nodes, dst) == Some(Dir(perm));
      var read := ReadDir(env, made.w);
      var names := env.listing(at, Names(s.tree, at));
      ListingReal(env, s.tree, at);
      EntriesKeep(env, s, at, dst, names, read.w);
      KeepsTrans(w.nodes, made.w.nodes, CopyEntries(env, s, at, dst, names, read.w).w.nodes, dst);
    }
  }

  predicate RealNames(names: seq<string>) {
    forall i :: 0 <= i < |names| ==> Real(names[i])
  }

  /** A listing has real names, those of the entries of the directory, each once. */
  lemma ListingReal(env: Env, m: Tree, at: Path)
    requires FairListing(env) && WF(m)
    ensures var names := env.listing(at, Names(m, at));
      && RealNames(names) && NoRepeats(names)
      && (forall n :: n in names <==> at + [n] in m)
  {
    var names := env.listing(at, Names(m, at));
    assert Lists(names, Names(m, at));
    forall n
      ensures n in names <==> at + [n] in m
    {
      if at + [n] in m {
        assert (at + [n])[|at|] == n;
        assert n in Names(m, at);
      }
      if n in Names(m, at) {
        var q :| q in m && |q| == |at| + 1 && at <= q && q[|at|] == n;
        assert q == at + [n];
      }
    }
    forall i | 0 <= i < |names|
      ensures Real(names[i])
    {
      assert names[i] in names;
      assert at + [names[i]] in m;
      assert (at + [names[i]])[|at|] == names[i];
    }
  }

  lemma {:induction false} EntriesKeep(env: Env, s: Source, at: Path, dst: Path, names: seq<string>, w: World)
    requires Ready(env, s, dst, w) && RealNames(names) && IsDir(w.nodes, dst)
    ensures var r := CopyEntries(env, s, at, dst, names, w);
      Keeps(w.nodes, r.w.nodes, dst) && Get(r.w.nodes, dst) == Get(w.nodes, dst)
    decreases Below(s.tree, at), 1, |names|
  {
    if names != [] {
      EntryKeeps(env, s, at, dst, names[0], w);
      var r := CopyEntry(env, s, at, dst, names[0], w);
      KeepsUp(w.nodes, r.w.nodes, dst, names[0]);
      if r.ok {
        EntriesKeep(env, s, at, dst, names[1..], r.w);
        KeepsTrans(w.nodes, r.w.nodes, CopyEntries(env, s, at, dst, names[1..], r.w).w.nodes, dst);
      }
    }
  }

  lemma {:induction false} EntryKeeps(env: Env, s: Source, at: Path, dst: Path, name: string, w: World)
    requires Ready(env, s, dst, w) && Real(name) && IsDir(w.nodes, dst)
    ensures Keeps(w.nodes, CopyEntry(env, s, at, dst, name, w).w.nodes, dst + [name])
    decreases Below(s.tree, at), 0
  {
    var k, d := at + [name], dst + [name];
    NoLinksDown(w.nodes, dst, name);
    assert Keeps(w.nodes, w.nodes, d);
    var lstat := Touchless(env, w);
    if lstat.ok && k in s.tree {
      match s.tree[k]
      case Link(_) =>
        var target := Resolve(s, k);
        if target.Some? && target.value.File? {
          CopyFileEffect(env, target.value, d, Tick(lstat.w));
        }
      case Dir(perm) =>
        BelowShrinks(s.tree, at, name);
        DirKeeps(env, s, k, d, perm, lstat.w);
      case File(_, _) =>
        CopyFileEffect(env, s.tree[k], d, lstat.w);
    }
  }
}
