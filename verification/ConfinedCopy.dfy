/**
  What a successful confined copy leaves behind: the dereferenced source laid over the old
  destination, and nothing else.
 */
module ConfinedCopy {
  import opened Paths
  import opened Os
  import opened Frames
  import opened Confined

  /** The place in the source that corresponds to place p at or below the destination. */
  function Image(at: Path, dst: Path, p: Path): Path
    requires dst <= p
  {
    at + p[|dst|..]
  }

  /** The source with its symlinks to files replaced by the files. */
  ghost function Deref(s: Source, k: Path): Node
    requires k in s.tree
  {
    if s.tree[k].Link? && Resolve(s, k).Some? then Resolve(s, k).value else s.tree[k]
  }

  /** m2 is m overlaid at dst with the dereferenced source below `at`; a missing directory on the
      way to dst has been made. */
  ghost predicate Laid(env: Env, s: Source, m: Tree, m2: Tree, at: Path, dst: Path, perm: nat) {
    forall p {:trigger Get(m2, p)} :: Get(m2, p) ==
      if dst <= p && Image(at, dst, p) in s.tree then Some(Deref(s, Image(at, dst, p)))
      else if p in m then Some(m[p])
      else if p < dst then Some(Dir(env.masked(perm)))
      else None
  }

  /** The same for the entries of a directory that have the given names. */
  ghost predicate Part(s: Source, m: Tree, m2: Tree, at: Path, dst: Path, names: seq<string>) {
    forall p {:trigger Get(m2, p)} :: Get(m2, p) ==
      if dst < p && p[|dst|] in names && Image(at, dst, p) in s.tree then Some(Deref(s, Image(at, dst, p)))
      else Get(m, p)
  }

  lemma ImageOfChild(at: Path, dst: Path, name: string, p: Path)
    ensures dst + [name] <= p <==> dst < p && p[|dst|] == name
    ensures dst + [name] <= p ==> Image(at + [name], dst + [name], p) == Image(at, dst, p)
    ensures dst + [name] <= p ==> at + [name] <= Image(at, dst, p)
  {
    var d := dst + [name];
    if d <= p {
      assert p[|dst|] == d[|dst|] && p[..|dst|] == d[..|dst|] == dst;
      assert p[|dst|..] == [name] + p[|d|..];
    }
    if dst < p && p[|dst|] == name {
      assert p == dst + p[|dst|..];
      assert p[..|d|] == d;
    }
  }

  lemma FilePart(s: Source, m: Tree, at: Path, dst: Path, name: string)
    requires WF(s.tree) && at + [name] in s.tree && !s.tree[at + [name]].Dir?
    ensures Part(s, m, m[dst + [name] := Deref(s, at + [name])], at, dst, [name])
  {
    var k, d := at + [name], dst + [name];
    var m2 := m[d := Deref(s, k)];
    forall p
      ensures Get(m2, p) ==
        if dst < p && p[|dst|] in [name] && Image(at, dst, p) in s.tree then Some(Deref(s, Image(at, dst, p)))
        else Get(m, p)
    {
      ImageOfChild(at, dst, name, p);
      if d <= p {
        NoneBelow(s.tree, k, Image(at, dst, p));
        if p == d {
          assert Image(at, dst, p) == k;
        } else {
          assert |p| > |d|;
          assert |Image(at, dst, p)| > |k|;
        }
      }
    }
  }

  lemma LaidPart(env: Env, s: Source, m: Tree, m2: Tree, at: Path, dst: Path, name: string, perm: nat)
    requires WF(m) && IsDir(m, dst)
    requires Laid(env, s, m, m2, at + [name], dst + [name], perm)
    ensures Part(s, m, m2, at, dst, [name])
  {
    var d := dst + [name];
    forall p
      ensures Get(m2, p) ==
        if dst < p && p[|dst|] in [name] && Image(at, dst, p) in s.tree then Some(Deref(s, Image(at, dst, p)))
        else Get(m, p)
    {
      ImageOfChild(at, dst, name, p);
      if p < d {
        assert p == d[..|p|] == dst[..|p|];
        Ancestors(m, p, dst);
      }
    }
  }

  lemma PartJoin(s: Source, m: Tree, m1: Tree, m2: Tree, at: Path, dst: Path, names: seq<string>)
    requires names != []
    requires Part(s, m, m1, at, dst, [names[0]]) && Part(s, m1, m2, at, dst, names[1..])
    ensures Part(s, m, m2, at, dst, names)
  {
    assert names == [names[0]] + names[1..];
    forall p
      ensures Get(m2, p) ==
        if dst < p && p[|dst|] in names && Image(at, dst, p) in s.tree then Some(Deref(s, Image(at, dst, p)))
        else Get(m, p)
    {
      assert Get(m1, p) ==
        if dst < p && p[|dst|] in [names[0]] && Image(at, dst, p) in s.tree then Some(Deref(s, Image(at, dst, p)))
        else Get(m, p);
    }
  }

  lemma {:induction false} EntryPart(env: Env, s: Source, at: Path, dst: Path, name: string, w: World)
    requires Ready(env, s, dst, w) && Real(name) && IsDir(w.nodes, dst)
    requires CopyEntry(env, s, at, dst, name, w).ok
    ensures Part(s, w.nodes, CopyEntry(env, s, at, dst, name, w).w.nodes, at, dst, [name])
    decreases Below(s.tree, at), 0
  {
    var k, d := at + [name], dst + [name];
    NoLinksDown(w.nodes, dst, name);
    match s.tree[k]
    case Link(_) =>
      CopyFileEffect(env, Resolve(s, k).value, d, Tick(Tick(w)));
      FilePart(s, w.nodes, at, dst, name);
    case Dir(perm) =>
      BelowShrinks(s.tree, at, name);
      DirLaid(env, s, k, d, perm, Tick(w));
      LaidPart(env, s, w.nodes, CopyDir(env, s, k, d, perm, Tick(w)).w.nodes, at, dst, name, perm);
    case File(_, _) =>
      CopyFileEffect(env, s.tree[k], d, Tick(w));
      FilePart(s, w.nodes, at, dst, name);
  }

  lemma {:induction false} EntriesPart(env: Env, s: Source, at: Path, dst: Path, names: seq<string>, w: World)
    requires Ready(env, s, dst, w) && RealNames(names) && IsDir(w.nodes, dst)
    requires CopyEntries(env, s, at, dst, names, w).ok
    ensures Part(s, w.nodes, CopyEntries(env, s, at, dst, names, w).w.nodes, at, dst, names)
    decreases Below(s.tree, at), 1, |names|
  {
    if names != [] {
      EntryPart(env, s, at, dst, names[0], w);
      EntryKeeps(env, s, at, dst, names[0], w);
      var r := CopyEntry(env, s, at, dst, names[0], w);
      KeepsUp(w.nodes, r.w.nodes, dst, names[0]);
      EntriesPart(env, s, at, dst, names[1..], r.w);
      PartJoin(s, w.nodes, r.w.nodes, CopyEntries(env, s, at, dst, names[1..], r.w).w.nodes, at, dst, names);
    }
  }

  /** The successful copy of a directory, under any faults it survived, any listing order and
      any umask: dst is the old dst overlaid with the dereferenced source. */
  lemma {:induction false} DirLaid(env: Env, s: Source, at: Path, dst: Path, perm: nat, w: World)
    requires Ready(env, s, dst, w) && at in s.tree && s.tree[at] == Dir(perm)
    requires CopyDir(env, s, at, dst, perm, w).ok
    ensures Laid(env, s, w.nodes, CopyDir(env, s, at, dst, perm, w).w.nodes, at, dst, perm)
    decreases Below(s.tree, at), 2
  {
    MakeDstEffect(env, dst, perm, w);
    ListingReal(env, s.tree, at);
    var made := MakeDst(env, dst, perm, w);
    var read := ReadDir(env, made.w);
    var names := env.listing(at, Names(s.tree, at));
    assert Get(made.w.nodes, dst) == Some(Dir(perm));
    EntriesPart(env, s, at, dst, names, read.w);
    PartLaid(env, s, w.nodes, made.w.nodes, CopyEntries(env, s, at, dst, names, read.w).w.nodes, at, dst, names, perm);
  }

  lemma PartLaid(env: Env, s: Source, m: Tree, m1: Tree, m2: Tree, at: Path, dst: Path, names: seq<string>, perm: nat)
    requires WF(s.tree) && at in s.tree && s.tree[at] == Dir(perm)
    requires Prepared(env, m, m1, dst, perm)
    requires Part(s, m1, m2, at, dst, names)
    requires forall n :: at + [n] in s.tree ==> n in names
    ensures Laid(env, s, m, m2, at, dst, perm)
  {
    forall p
      ensures Get(m2, p) ==
        if dst <= p && Image(at, dst, p) in s.tree then Some(Deref(s, Image(at, dst, p)))
        else if p in m then Some(m[p])
        else if p < dst then Some(Dir(env.masked(perm)))
        else None
    {
      assert Get(m1, p) ==
        if p == dst then Some(Dir(perm)) else if p in m then Some(m[p])
        else if p < dst then Some(Dir(env.masked(perm))) else None;
      if p == dst {
        assert Image(at, dst, p) == at;
      } else if dst <= p && Image(at, dst, p) in s.tree {
        ImageOfChild(at, dst, p[|dst|], p);
        Ancestors(s.tree, at + [p[|dst|]], Image(at, dst, p));
      }
    }
  }
}
