/**
  Confinement as noninterference: the copy depends on nothing outside the root and the
  destination.  Two hosts that agree there, however they differ elsewhere, behave the same at
  every fault, and end with the same destination.
 */
module ConfinedLocal {
  import opened Paths
  import opened Os
  import opened Frames
  import opened Confined

  ghost predicate SameBelow(m: Tree, m2: Tree, base: Path) {
    forall k {:trigger Get(m, k)} {:trigger Get(m2, k)} :: base <= k ==> Get(m, k) == Get(m2, k)
  }

  /** The nodes a destination is made of: those on the way to it and those below it. */
  ghost predicate SameView(m: Tree, m2: Tree, dst: Path) {
    forall p {:trigger Get(m, p)} {:trigger Get(m2, p)} :: p <= dst || dst <= p ==> Get(m, p) == Get(m2, p)
  }

  /** Wherever the hosts agreed before, they agree after. */
  ghost predicate StaySame(m1: Tree, m2: Tree, n1: Tree, n2: Tree) {
    forall p {:trigger Get(n1, p)} {:trigger Get(n2, p)} :: Get(m1, p) == Get(m2, p) ==> Get(n1, p) == Get(n2, p)
  }

  ghost predicate SameRun(w1: World, w2: World, r1: Outcome, r2: Outcome) {
    && r1.ok == r2.ok && r1.w.tick == r2.w.tick
    && StaySame(w1.nodes, w2.nodes, r1.w.nodes, r2.w.nodes)
  }

  // ------------------------------------------------------------------ the resolver

  /** Confined resolution never leaves the root, through any chain of symlinks and "..". */
  lemma {:induction false} WalkStays(m: Tree, base: Path, cur: Path, todo: seq<string>, links: nat, follow: bool)
    requires base <= cur
    ensures var r := Walk(m, base, true, cur, todo, links, follow);
      r.Found? || r.Missing? ==> base <= r.path
    decreases links, |todo|
  {
    if todo != [] {
      var c, rest := todo[0], todo[1..];
      if c == "" || c == "." {
        WalkStays(m, base, cur, rest, links, follow);
      } else if c == ".." {
        if !(cur == base || cur == []) {
          ParentPrefix(base, cur);
          WalkStays(m, base, Parent(cur), rest, links, follow);
        }
      } else {
        var next := cur + [c];
        assert base <= next;
        if next in m {
          match m[next]
          case Dir(_) => WalkStays(m, base, next, rest, links, follow);
          case File(_, _) =>
          case Link(target) =>
            if links > 0 && !Rooted(target) {
              WalkStays(m, base, cur, Split(target) + rest, links - 1, follow);
            }
        }
      }
    }
  }

  /** It reads nothing outside the root either. */
  lemma {:induction false} WalkConfined(m: Tree, m2: Tree, base: Path, cur: Path, todo: seq<string>, links: nat,
                                        follow: bool)
    requires base <= cur && SameBelow(m, m2, base)
    ensures Walk(m, base, true, cur, todo, links, follow) == Walk(m2, base, true, cur, todo, links, follow)
    decreases links, |todo|
  {
    if todo != [] {
      var c, rest := todo[0], todo[1..];
      if c == "" || c == "." {
        WalkConfined(m, m2, base, cur, rest, links, follow);
      } else if c == ".." {
        if !(cur == base || cur == []) {
          ParentPrefix(base, cur);
          WalkConfined(m, m2, base, Parent(cur), rest, links, follow);
        }
      } else {
        var next := cur + [c];
        assert base <= next;
        assert Get(m, next) == Get(m2, next);
        if next in m {
          match m[next]
          case Dir(_) => WalkConfined(m, m2, base, next, rest, links, follow);
          case File(_, _) =>
          case Link(target) =>
            if links > 0 && !Rooted(target) {
              WalkConfined(m, m2, base, cur, Split(target) + rest, links - 1, follow);
            }
        }
      }
    }
  }

  ghost predicate SameSource(s1: Source, s2: Source) {
    s1.base == s2.base && s1.left == s2.left && SameBelow(s1.tree, s2.tree, s1.base)
  }

  lemma ResolveSame(s1: Source, s2: Source, at: Path, name: string)
    requires SameSource(s1, s2) && s1.base <= at
    ensures Resolve(s1, at + [name]) == Resolve(s2, at + [name])
  {
    var k := at + [name];
    assert Parent(k) == at;
    WalkConfined(s1.tree, s2.tree, s1.base, at, [Last(k)], s1.left, true);
    WalkStays(s1.tree, s1.base, at, [Last(k)], s1.left, true);
    var t := Walk(s1.tree, s1.base, true, at, [Last(k)], s1.left, true);
    if t.Found? {
      assert Get(s1.tree, t.path) == Get(s2.tree, t.path);
    }
  }

  lemma ListedSame(s1: Source, s2: Source, at: Path)
    requires SameSource(s1, s2) && s1.base <= at
    ensures Names(s1.tree, at) == Names(s2.tree, at)
    ensures Below(s1.tree, at) == Below(s2.tree, at)
  {
    forall k | at <= k
      ensures k in s1.tree <==> k in s2.tree
    {
      assert s1.base <= k;
      assert Get(s1.tree, k) == Get(s2.tree, k);
    }
  }

  // ------------------------------------------------------------------ the calls

  lemma OpenAtSame(env: Env, w1: World, w2: World, at: Walked, perm: nat)
    requires w1.tick == w2.tick
    requires at.Found? ==> Get(w1.nodes, at.path) == Get(w2.nodes, at.path)
    ensures var r1, r2 := OpenAt(env, w1, at, perm), OpenAt(env, w2, at, perm);
      && r1.file == r2.file && r1.w.tick == r2.w.tick
      && StaySame(w1.nodes, w2.nodes, r1.w.nodes, r2.w.nodes)
  {
  }

  lemma OpenFileSame(env: Env, w1: World, w2: World, p: Path, perm: nat)
    requires w1.tick == w2.tick && WF(w1.nodes) && Clear(w1.nodes, p) && AllReal(p) && p != []
    requires SameOnWay(w1.nodes, w2.nodes, p)
    ensures var r1, r2 := OpenFile(env, w1, p, perm), OpenFile(env, w2, p, perm);
      && r1.file == r2.file && r1.w.tick == r2.w.tick
      && StaySame(w1.nodes, w2.nodes, r1.w.nodes, r2.w.nodes)
  {
    hide Walk;
    LocateSame(env, w1.nodes, w2.nodes, p, true);
    LocateClear(env, w1.nodes, p, true);
    assert Get(w1.nodes, p) == Get(w2.nodes, p);
    OpenAtSame(env, w1, w2, Locate(env, w1.nodes, p, true), perm);
  }

  lemma WriteSame(env: Env, w1: World, w2: World, q: Path, data: Bytes)
    requires w1.tick == w2.tick && Get(w1.nodes, q) == Get(w2.nodes, q)
    ensures SameRun(w1, w2, Write(env, w1, q, data), Write(env, w2, q, data))
  {
  }

  lemma ChmodSame(env: Env, w1: World, w2: World, p: Path, perm: nat)
    requires w1.tick == w2.tick && WF(w1.nodes) && Clear(w1.nodes, p) && AllReal(p)
    requires SameOnWay(w1.nodes, w2.nodes, p)
    ensures SameRun(w1, w2, Chmod(env, w1, p, perm), Chmod(env, w2, p, perm))
  {
    LocateSame(env, w1.nodes, w2.nodes, p, true);
    LocateClear(env, w1.nodes, p, true);
    assert Get(w1.nodes, p) == Get(w2.nodes, p);
  }

  lemma MkdirAtSame(env: Env, w1: World, w2: World, at: Walked, perm: nat)
    requires w1.tick == w2.tick
    requires at.Found? ==> Get(w1.nodes, at.path) == Get(w2.nodes, at.path)
    ensures SameRun(w1, w2, MkdirAt(env, w1, at, perm), MkdirAt(env, w2, at, perm))
  {
  }

  lemma CheckedSame(env: Env, w1: World, w2: World, p: Path, perm: nat)
    requires w1.tick == w2.tick && WF(w1.nodes) && Clear(w1.nodes, p) && AllReal(p)
    requires SameOnWay(w1.nodes, w2.nodes, p)
    ensures SameRun(w1, w2, MkdirChecked(env, w1, p, perm), MkdirChecked(env, w2, p, perm))
  {
    hide Walk, Locate;
    LocateSame(env, w1.nodes, w2.nodes, p, false);
    LocateClear(env, w1.nodes, p, false);
    assert Get(w1.nodes, p) == Get(w2.nodes, p);
    var at := Locate(env, w1.nodes, p, false);
    MkdirAtSame(env, w1, w2, at, perm);
    assert IsDirEntry(env, w1.nodes, p) == IsDirEntry(env, w2.nodes, p);
  }

  lemma {:induction false} MkdirAllSame(env: Env, w1: World, w2: World, p: Path, perm: nat)
    requires w1.tick == w2.tick && WF(w1.nodes) && Clear(w1.nodes, p) && AllReal(p)
    requires SameOnWay(w1.nodes, w2.nodes, p)
    ensures SameRun(w1, w2, MkdirAll(env, w1, p, perm), MkdirAll(env, w2, p, perm))
    decreases |p|
  {
    hide Walk, MkdirChecked;
    LocateSame(env, w1.nodes, w2.nodes, p, true);
    LocateClear(env, w1.nodes, p, true);
    assert Get(w1.nodes, p) == Get(w2.nodes, p);
    if p == [] {
      CheckedSame(env, Tick(w1), Tick(w2), p, perm);
    } else {
      var up := Parent(p);
      ClearParent(w1.nodes, p);
      SameOnWayUp(w1.nodes, w2.nodes, up, p);
      MkdirAllSame(env, Tick(w1), Tick(w2), up, perm);
      MkdirAllEffect(env, Tick(w1), up, perm);
      var r1, r2 := MkdirAll(env, Tick(w1), up, perm), MkdirAll(env, Tick(w2), up, perm);
      MadeWider(w1.nodes, r1.w.nodes, p, env.masked(perm));
      if r1.ok {
        CheckedSame(env, r1.w, r2.w, p, perm);
      }
    }
  }

  lemma MakeDstSame(env: Env, dst: Path, perm: nat, w1: World, w2: World)
    requires w1.tick == w2.tick && WF(w1.nodes) && NoLinks(w1.nodes, dst) && AllReal(dst)
    requires SameOnWay(w1.nodes, w2.nodes, dst)
    ensures SameRun(w1, w2, MakeDst(env, dst, perm, w1), MakeDst(env, dst, perm, w2))
  {
    MkdirAllSame(env, w1, w2, dst, perm);
    MkdirAllEffect(env, w1, dst, perm);
    var r1, r2 := MkdirAll(env, w1, dst, perm), MkdirAll(env, w2, dst, perm);
    if r1.ok {
      ChmodSame(env, r1.w, r2.w, dst, perm);
    }
  }

  lemma FillSame(env: Env, f: Node, dst: Path, w1: World, w2: World)
    requires f.File? && w1.tick == w2.tick && WF(w1.nodes) && Clear(w1.nodes, dst) && AllReal(dst) && dst != []
    requires dst in w1.nodes && w1.nodes[dst].File?
    requires SameOnWay(w1.nodes, w2.nodes, dst)
    ensures SameRun(w1, w2, Fill(env, f, dst, dst, w1), Fill(env, f, dst, dst, w2))
  {
    assert Get(w1.nodes, dst) == Get(w2.nodes, dst);
    WriteSame(env, w1, w2, dst, f.data);
    WriteEffect(env, w1, dst, f.data);
    var c1, c2 := Write(env, w1, dst, f.data), Write(env, w2, dst, f.data);
    if c1.ok {
      assert IsDir(w1.nodes, Parent(dst));
      PutWF(w1.nodes, dst, c1.w.nodes[dst]);
      ChmodSame(env, c1.w, c2.w, dst, f.perm);
    }
  }

  lemma CopyFileSame(env: Env, f: Node, dst: Path, w1: World, w2: World)
    requires f.File? && w1.tick == w2.tick && WF(w1.nodes) && Clear(w1.nodes, dst) && AllReal(dst) && dst != []
    requires SameOnWay(w1.nodes, w2.nodes, dst)
    ensures SameRun(w1, w2, CopyFile(env, f, dst, w1), CopyFile(env, f, dst, w2))
  {
    var t1, t2 := Tick(w1), Tick(w2);
    if !env.fault(w1.tick) {
      OpenFileSame(env, t1, t2, dst, f.perm);
      OpenFileEffect(env, t1, dst, f.perm);
      var o1, o2 := OpenFile(env, t1, dst, f.perm), OpenFile(env, t2, dst, f.perm);
      if o1.file.Some? {
        PutWF(w1.nodes, dst, o1.w.nodes[dst]);
        FillSame(env, f, dst, o1.w, o2.w);
      }
    }
  }

  // ------------------------------------------------------------------ the copy

  ghost predicate SameStart(env: Env, s1: Source, s2: Source, at: Path, dst: Path, w1: World, w2: World) {
    && SameSource(s1, s2) && s1.base <= at
    && Ready(env, s1, dst, w1) && Ready(env, s2, dst, w2)
    && w1.tick == w2.tick && SameView(w1.nodes, w2.nodes, dst)
  }

  lemma LeafSame(env: Env, s1: Source, s2: Source, at: Path, dst: Path, name: string, w1: World, w2: World)
    requires SameStart(env, s1, s2, at, dst, w1, w2) && Real(name)
    requires !IsDir(s1.tree, at + [name])
    ensures SameRun(w1, w2, CopyEntry(env, s1, at, dst, name, w1), CopyEntry(env, s2, at, dst, name, w2))
  {
    hide Walk, CopyFile, CopyDir, Resolve;
    var k, d := at + [name], dst + [name];
    assert s1.base <= k;
    assert Get(s1.tree, k) == Get(s2.tree, k);
    NoLinksDown(w1.nodes, dst, name);
    ViewDown(w1.nodes, w2.nodes, dst, name);
    var t1, t2 := Tick(w1), Tick(w2);
    if !env.fault(w1.tick) && k in s1.tree {
      match s1.tree[k]
      case Link(_) =>
        ResolveSame(s1, s2, at, name);
        var target := Resolve(s1, k);
        if target.Some? && target.value.File? {
          CopyFileSame(env, target.value, d, Tick(t1), Tick(t2));
        }
      case File(_, _) =>
        CopyFileSame(env, s1.tree[k], d, t1, t2);
    }
  }

  lemma {:induction false} EntrySame(env: Env, s1: Source, s2: Source, at: Path, dst: Path, name: string, w1: World,
                                     w2: World)
    requires SameStart(env, s1, s2, at, dst, w1, w2) && Real(name) && IsDir(w1.nodes, dst) && IsDir(w2.nodes, dst)
    ensures SameRun(w1, w2, CopyEntry(env, s1, at, dst, name, w1), CopyEntry(env, s2, at, dst, name, w2))
    decreases Below(s1.tree, at), 0
  {
    hide Walk, CopyFile, Resolve;
    var k, d := at + [name], dst + [name];
    if IsDir(s1.tree, k) {
      assert s1.base <= k;
      assert Get(s1.tree, k) == Get(s2.tree, k);
      NoLinksDown(w1.nodes, dst, name);
      NoLinksDown(w2.nodes, dst, name);
      ViewDown(w1.nodes, w2.nodes, dst, name);
      BelowShrinks(s1.tree, at, name);
      DirSame(env, s1, s2, k, d, s1.tree[k].perm, Tick(w1), Tick(w2));
    } else {
      LeafSame(env, s1, s2, at, dst, name, w1, w2);
    }
  }

  lemma ViewDown(m: Tree, m2: Tree, dst: Path, name: string)
    requires SameView(m, m2, dst)
    ensures SameView(m, m2, dst + [name])
  {
    var d := dst + [name];
    forall p | p <= d || d <= p
      ensures Get(m, p) == Get(m2, p)
    {
      if p <= d && p != d {
        ParentPrefix(p, d);
        assert Parent(d) == dst;
      } else {
        assert dst == d[..|dst|] == p[..|dst|];
      }
    }
  }

  lemma {:induction false} EntriesSame(env: Env, s1: Source, s2: Source, at: Path, dst: Path, names: seq<string>,
                                       w1: World, w2: World)
    requires SameStart(env, s1, s2, at, dst, w1, w2) && RealNames(names) && IsDir(w1.nodes, dst) && IsDir(w2.nodes, dst)
    ensures SameRun(w1, w2, CopyEntries(env, s1, at, dst, names, w1), CopyEntries(env, s2, at, dst, names, w2))
    decreases Below(s1.tree, at), 1, |names|
  {
    if names != [] {
      EntrySame(env, s1, s2, at, dst, names[0], w1, w2);
      EntryKeeps(env, s1, at, dst, names[0], w1);
      EntryKeeps(env, s2, at, dst, names[0], w2);
      var r1, r2 := CopyEntry(env, s1, at, dst, names[0], w1), CopyEntry(env, s2, at, dst, names[0], w2);
      KeepsUp(w1.nodes, r1.w.nodes, dst, names[0]);
      KeepsUp(w2.nodes, r2.w.nodes, dst, names[0]);
      if r1.ok {
        EntriesSame(env, s1, s2, at, dst, names[1..], r1.w, r2.w);
      }
    }
  }

  /** Noninterference for a directory: same outcome, same number of calls, and agreement wherever
      there was agreement, whatever the faults. */
  lemma {:induction false} DirSame(env: Env, s1: Source, s2: Source, at: Path, dst: Path, perm: nat, w1: World,
                                   w2: World)
    requires SameStart(env, s1, s2, at, dst, w1, w2)
    ensures SameRun(w1, w2, CopyDir(env, s1, at, dst, perm, w1), CopyDir(env, s2, at, dst, perm, w2))
    decreases Below(s1.tree, at), 2
  {
    MakeDstSame(env, dst, perm, w1, w2);
    MakeDstEffect(env, dst, perm, w1);
    MakeDstEffect(env, dst, perm, w2);
    var m1, m2 := MakeDst(env, dst, perm, w1), MakeDst(env, dst, perm, w2);
    var d1, d2 := ReadDir(env, m1.w), ReadDir(env, m2.w);
    if m1.ok && d1.ok {
      assert Get(m1.w.nodes, dst) == Some(Dir(perm)) == Get(m2.w.nodes, dst);
      ListedSame(s1, s2, at);
      ListingReal(env, s1.tree, at);
      EntriesSame(env, s1, s2, at, dst, env.listing(at, Names(s1.tree, at)), d1.w, d2.w);
    }
  }
}
