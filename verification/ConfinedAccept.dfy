/**
  When a confined copy succeeds: exactly when every symlink below the source resolves, inside
  the root, to a file, and no node of the destination is in the way.
 */
module ConfinedAccept {
  import opened Paths
  import opened Os
  import opened Frames
  import opened Confined

  /** The entry k can be copied to its place: a symlink leads to a file within the root, and what
      is at the destination already is of the same kind. */
  ghost predicate NodeFits(s: Source, m: Tree, at: Path, dst: Path, k: Path)
    requires k in s.tree && at <= k
  {
    && (s.tree[k].Link? ==> Resolve(s, k).Some? && Resolve(s, k).value.File?)
    && (dst + k[|at|..] in m ==> (m[dst + k[|at|..]].Dir? <==> s.tree[k].Dir?))
  }

  ghost predicate TreeFits(s: Source, m: Tree, at: Path, dst: Path) {
    forall k :: k in s.tree && at <= k ==> NodeFits(s, m, at, dst, k)
  }

  ghost predicate FitsPart(s: Source, m: Tree, at: Path, dst: Path, names: seq<string>) {
    forall k :: k in s.tree && at < k && k[|at|] in names ==> NodeFits(s, m, at, dst, k)
  }

  lemma ChildFits(s: Source, m: Tree, at: Path, dst: Path, name: string)
    ensures TreeFits(s, m, at + [name], dst + [name]) <==> FitsPart(s, m, at, dst, [name])
  {
    var c, d := at + [name], dst + [name];
    forall k | k in s.tree
      ensures c <= k <==> at < k && k[|at|] in [name]
      ensures c <= k ==> dst + k[|at|..] == d + k[|c|..]
    {
      if c <= k {
        assert k[..|at|] == c[..|at|] == at && k[|at|] == c[|at|];
        assert k[|at|..] == [name] + k[|c|..];
      }
      if at < k && k[|at|] == name {
        assert k[..|c|] == c;
      }
    }
    if TreeFits(s, m, c, d) {
      forall k | k in s.tree && at < k && k[|at|] in [name]
        ensures NodeFits(s, m, at, dst, k)
      {
        assert c <= k;
        assert NodeFits(s, m, c, d, k);
      }
    }
    if FitsPart(s, m, at, dst, [name]) {
      forall k | k in s.tree && c <= k
        ensures NodeFits(s, m, c, d, k)
      {
        assert at < k && k[|at|] in [name];
        assert NodeFits(s, m, at, dst, k);
      }
    }
  }

  lemma LeafFits(s: Source, m: Tree, at: Path, dst: Path, name: string)
    requires WF(s.tree) && at + [name] in s.tree && !s.tree[at + [name]].Dir?
    ensures FitsPart(s, m, at, dst, [name]) <==>
      && (s.tree[at + [name]].Link? ==> Resolve(s, at + [name]).Some? && Resolve(s, at + [name]).value.File?)
      && !IsDir(m, dst + [name])
  {
    var c := at + [name];
    assert at < c && c[|at|] in [name];
    assert dst + c[|at|..] == dst + [name];
    forall k | k in s.tree && at < k && k[|at|] in [name]
      ensures k == c
    {
      assert k[..|c|] == c;
      NoneBelow(s.tree, c, k);
    }
    if FitsPart(s, m, at, dst, [name]) {
      assert NodeFits(s, m, at, dst, c);
    }
  }

  lemma {:induction false} EntryFits(env: Env, s: Source, at: Path, dst: Path, name: string, w: World)
    requires NoFault(env) && Ready(env, s, dst, w) && Real(name) && IsDir(w.nodes, dst)
    requires at + [name] in s.tree
    ensures CopyEntry(env, s, at, dst, name, w).ok <==> FitsPart(s, w.nodes, at, dst, [name])
    decreases Below(s.tree, at), 0
  {
    var k, d := at + [name], dst + [name];
    NoLinksDown(w.nodes, dst, name);
    assert Parent(d) == dst;
    match s.tree[k]
    case Link(_) =>
      LeafFits(s, w.nodes, at, dst, name);
      var target := Resolve(s, k);
      if target.Some? && target.value.File? {
        CopyFileEffect(env, target.value, d, Tick(Tick(w)));
      }
    case Dir(perm) =>
      BelowShrinks(s.tree, at, name);
      DirFits(env, s, k, d, perm, Tick(w));
      ChildFits(s, w.nodes, at, dst, name);
      WayToChild(s, w.nodes, k, dst, name);
    case File(_, _) =>
      LeafFits(s, w.nodes, at, dst, name);
      CopyFileEffect(env, s.tree[k], d, Tick(w));
  }

  lemma WayToChild(s: Source, m: Tree, k: Path, dst: Path, name: string)
    requires WF(m) && IsDir(m, dst) && IsDir(s.tree, k)
    ensures TreeFits(s, m, k, dst + [name]) ==> DirsOnWay(m, dst + [name])
  {
    var d := dst + [name];
    if TreeFits(s, m, k, d) {
      assert NodeFits(s, m, k, d, k);
      assert d + k[|k|..] == d;
      forall q | q in m && q <= d
        ensures m[q].Dir?
      {
        if q != d {
          ParentPrefix(q, d);
          assert Parent(d) == dst;
          Ancestors(m, q, dst);
        }
      }
    }
  }

  lemma {:induction false} EntriesFit(env: Env, s: Source, at: Path, dst: Path, names: seq<string>, w: World)
    requires NoFault(env) && Ready(env, s, dst, w) && RealNames(names) && NoRepeats(names) && IsDir(w.nodes, dst)
    requires forall n :: n in names ==> at + [n] in s.tree
    ensures CopyEntries(env, s, at, dst, names, w).ok <==> FitsPart(s, w.nodes, at, dst, names)
    decreases Below(s.tree, at), 1, |names|
  {
    if names != [] {
      assert names[0] in names && (forall n :: n in names[1..] ==> n in names);
      EntryFits(env, s, at, dst, names[0], w);
      EntryKeeps(env, s, at, dst, names[0], w);
      var r := CopyEntry(env, s, at, dst, names[0], w);
      KeepsUp(w.nodes, r.w.nodes, dst, names[0]);
      SplitFits(s, w.nodes, at, dst, names);
      if r.ok {
        EntriesFit(env, s, at, dst, names[1..], r.w);
        assert names[0] !in names[1..];
        SiblingFits(s, w.nodes, r.w.nodes, at, dst, names[0], names[1..]);
      }
    }
  }

  lemma SplitFits(s: Source, m: Tree, at: Path, dst: Path, names: seq<string>)
    requires names != []
    ensures FitsPart(s, m, at, dst, names) <==>
      FitsPart(s, m, at, dst, [names[0]]) && FitsPart(s, m, at, dst, names[1..])
  {
    assert forall n :: n in names <==> n in [names[0]] || n in names[1..];
  }

  /** Copying one entry does not change whether its siblings fit. */
  lemma SiblingFits(s: Source, m: Tree, m1: Tree, at: Path, dst: Path, name: string, names: seq<string>)
    requires name !in names
    requires forall p {:trigger Get(m1, p)} :: dst + [name] <= p || Get(m1, p) == Get(m, p)
    ensures FitsPart(s, m, at, dst, names) <==> FitsPart(s, m1, at, dst, names)
  {
    forall k | k in s.tree && at < k && k[|at|] in names
      ensures NodeFits(s, m, at, dst, k) <==> NodeFits(s, m1, at, dst, k)
    {
      var p := dst + k[|at|..];
      assert p[|dst|] == k[|at|];
      assert (dst + [name])[|dst|] == name;
      assert Get(m1, p) == Get(m, p);
    }
  }

  /** In a fault-free run the copy of a directory succeeds exactly when it fits and nothing but
      directories is on the way to dst. */
  lemma {:induction false} DirFits(env: Env, s: Source, at: Path, dst: Path, perm: nat, w: World)
    requires NoFault(env) && Ready(env, s, dst, w) && IsDir(s.tree, at)
    ensures CopyDir(env, s, at, dst, perm, w).ok <==> DirsOnWay(w.nodes, dst) && TreeFits(s, w.nodes, at, dst)
    decreases Below(s.tree, at), 2
  {
    MakeDstEffect(env, dst, perm, w);
    ListingReal(env, s.tree, at);
    var made := MakeDst(env, dst, perm, w);
    var names := env.listing(at, Names(s.tree, at));
    if made.ok {
      assert Get(made.w.nodes, dst) == Some(Dir(perm));
      EntriesFit(env, s, at, dst, names, ReadDir(env, made.w).w);
      WholeFits(env, s, w.nodes, made.w.nodes, at, dst, perm, names);
    }
  }

  lemma WholeFits(env: Env, s: Source, m: Tree, m1: Tree, at: Path, dst: Path, perm: nat, names: seq<string>)
    requires WF(s.tree) && IsDir(s.tree, at) && DirsOnWay(m, dst)
    requires Prepared(env, m, m1, dst, perm)
    requires forall n :: at + [n] in s.tree ==> n in names
    ensures TreeFits(s, m, at, dst) <==> FitsPart(s, m1, at, dst, names)
  {
    forall k | k in s.tree && at <= k
      ensures k == at ==> NodeFits(s, m, at, dst, k)
      ensures k != at ==> at < k && k[|at|] in names
      ensures k != at ==> (NodeFits(s, m, at, dst, k) <==> NodeFits(s, m1, at, dst, k))
    {
      var p := dst + k[|at|..];
      if k == at {
        assert p == dst;
      } else {
        assert (at + [k[|at|]]) == k[..|at| + 1];
        Ancestors(s.tree, at + [k[|at|]], k);
        assert |p| > |dst|;
        assert Get(m1, p) == Get(m, p);
      }
    }
  }
}
