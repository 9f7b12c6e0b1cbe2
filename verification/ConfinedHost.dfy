/**
  CopyDirConfined as the program runs it: recursive procedures over a host whose every read goes
  through the confinement root while the destination is being written.
 */
module ConfinedHost {
  import opened Paths
  import opened Os
  import opened Hosts
  import opened Frames
  import opened Confined
  import opened ConfinedLocal

  /** Neither path is at or below the other. */
  predicate Disjoint(p: Path, q: Path) {
    !(p <= q) && !(q <= p)
  }

  /** The copy that CopyDirConfined makes once root is open, reading the tree as it was then. */
  ghost function RunOpened(env: Env, w: World, base: Path, rel: seq<string>, dst: Path): Outcome {
    var lstat := Touchless(env, w);
    var at := Walk(w.nodes, base, true, base, rel, env.maxLinks, false);
    if !lstat.ok || !at.Found? || !IsDir(w.nodes, at.path) then Outcome(lstat.w, false)
    else CopyDir(env, Source(w.nodes, base, LeftFor(env, w.nodes, base, rel)), at.path,
      dst, w.nodes[at.path].perm, lstat.w)
  }

  /** What filepath.Join makes of the components of a relative path. */
  function CleanRel(rel: seq<string>): Path {
    Fold(false, [], rel)
  }

  /** The recursion addresses the entries by the cleaned path: how many symlinks that path leaves
      to follow. */
  function LeftFor(env: Env, m: Tree, base: Path, rel: seq<string>): nat {
    var r := Walk(m, base, true, base, CleanRel(rel), env.maxLinks, true);
    if r.Found? then r.left else 0
  }

  /** If rel leads to a directory, its cleaned form leads to the same one. */
  predicate CleansAlike(env: Env, m: Tree, base: Path, rel: seq<string>) {
    var r := Walk(m, base, true, base, rel, env.maxLinks, false);
    var c := Walk(m, base, true, base, CleanRel(rel), env.maxLinks, true);
    NoSlashes(rel) && (r.Found? && IsDir(m, r.path) ==> c.Found? && c.path == r.path)
  }

  lemma CleanRelEntry(rel: seq<string>, name: string)
    requires NoSlashes(rel) && Real(name)
    ensures CleanRel(rel + [name]) == CleanRel(rel) + [name]
    ensures CleanRel(CleanRel(rel) + [name]) == CleanRel(rel) + [name]
    ensures NoSlashes(CleanRel(rel) + [name])
  {
    FoldNormal(false, [], rel);
    FoldAppend(false, [], rel, [name]);
    var c := CleanRel(rel) + [name];
    assert Normal(false, c);
    assert [] + c == c;
    FoldFixed(false, [], c);
  }

  /** A path of real components is clean. */
  lemma RealCleansAlike(env: Env, m: Tree, base: Path, rel: seq<string>)
    requires AllReal(rel)
    ensures CleanRel(rel) == rel && CleansAlike(env, m, base, rel)
  {
    assert [] + rel == rel;
    FoldFixed(false, [], rel);
    if Walk(m, base, true, base, rel, env.maxLinks, false).Found? {
      if IsDir(m, Walk(m, base, true, base, rel, env.maxLinks, false).path) {
        WalkSettled(m, base, base, rel, env.maxLinks);
      }
    }
  }

  // ------------------------------------------------------------------ resolution from the root

  /** What is not a symlink is found the same way by Lstat and by Stat. */
  lemma {:induction false} WalkSettled(m: Tree, base: Path, cur: Path, todo: seq<string>, links: nat)
    requires var r := Walk(m, base, true, cur, todo, links, false); r.Found? && IsDir(m, r.path)
    ensures Walk(m, base, true, cur, todo, links, true) == Walk(m, base, true, cur, todo, links, false)
    decreases links, |todo|
  {
    if todo != [] {
      var c, rest := todo[0], todo[1..];
      if c == "" || c == "." {
        WalkSettled(m, base, cur, rest, links);
      } else if c == ".." {
        WalkSettled(m, base, Parent(cur), rest, links);
      } else {
        var next := cur + [c];
        match m[next]
        case Dir(_) => WalkSettled(m, base, next, rest, links);
        case Link(target) => WalkSettled(m, base, cur, Split(target) + rest, links - 1);
      }
    }
  }

  lemma ChildLookup(s: Source, rel: seq<string>, at: Path, name: string, links: nat)
    requires Walk(s.tree, s.base, true, s.base, rel, links, true) == Found(at, s.left) && IsDir(s.tree, at)
    requires Real(name) && at + [name] in s.tree
    ensures var k := at + [name];
      var lstat := Walk(s.tree, s.base, true, s.base, rel + [name], links, false);
      var stat := Walk(s.tree, s.base, true, s.base, rel + [name], links, true);
      && lstat.Found? && lstat.path == k
      && stat == Walk(s.tree, s.base, true, Parent(k), [Last(k)], s.left, true)
      && (!s.tree[k].Link? ==> stat == Found(k, s.left))
  {
    assert Parent(at + [name]) == at;
    WalkOn(s.tree, s.base, true, s.base, rel, [name], links, false);
    WalkOn(s.tree, s.base, true, s.base, rel, [name], links, true);
  }

  /** Following symlinks never ends at one. */
  lemma {:induction false} WalkTarget(m: Tree, base: Path, cur: Path, todo: seq<string>, links: nat)
    requires WF(m) && IsDir(m, cur)
    ensures var r := Walk(m, base, true, cur, todo, links, true);
      r.Found? ==> r.path in m && !m[r.path].Link?
    decreases links, |todo|
  {
    if todo != [] {
      var c, rest := todo[0], todo[1..];
      if c == "" || c == "." {
        WalkTarget(m, base, cur, rest, links);
      } else if c == ".." {
        if !(cur == base || cur == []) {
          WalkTarget(m, base, Parent(cur), rest, links);
        }
      } else if cur + [c] in m {
        match m[cur + [c]]
        case Dir(_) => WalkTarget(m, base, cur + [c], rest, links);
        case File(_, _) =>
        case Link(target) =>
          if links > 0 && !Rooted(target) {
            WalkTarget(m, base, cur, Split(target) + rest, links - 1);
          }
      }
    }
  }

  lemma ChildDisjoint(base: Path, dst: Path, name: string)
    requires Disjoint(base, dst)
    ensures Disjoint(base, dst + [name])
  {
    var d := dst + [name];
    if base <= d {
      Comparable(base, dst, d);
    }
    Comparable(dst, base, d);
  }

  /** The host still has, below the root, the tree the copy started from. */
  ghost predicate Intact(h: Host, s: Source, dst: Path)
    reads h
  {
    && Ready(h.env, s, dst, h.w) && Disjoint(s.base, dst)
    && SameBelow(s.tree, h.w.nodes, s.base)
  }

  lemma KeepsIntact(s: Source, m: Tree, m2: Tree, dst: Path)
    requires Disjoint(s.base, dst) && SameBelow(s.tree, m, s.base) && Keeps(m, m2, dst)
    ensures SameBelow(s.tree, m2, s.base)
  {
    forall k | s.base <= k
      ensures Get(s.tree, k) == Get(m2, k)
    {
      assert dst <= k || Get(m2, k) == Get(m, k) || (k < dst && k !in m && IsDir(m2, k));
      Comparable(s.base, dst, k);
      assert Get(s.tree, k) == Get(m, k);
    }
  }

  /** Prefixes of the same path are comparable. */
  lemma Comparable(p: Path, q: Path, k: Path)
    ensures p <= k && q <= k ==> p <= q || q <= p
    ensures p <= k && k <= q ==> p <= q
  {
    if p <= k && q <= k {
      if |p| <= |q| {
        assert p == k[..|p|] == q[..|p|];
      } else {
        assert q == k[..|q|] == p[..|q|];
      }
    }
    if p <= k && k <= q {
      assert p == k[..|p|] == q[..|p|];
    }
  }

  method CopyFileConfined(h: Host, base: Path, rel: seq<string>, dst: Path, perm: nat, ghost s: Source, ghost f: Node)
    returns (ok: bool)
    requires s.base == base && Intact(h, s, dst) && dst != [] && f.File? && f.perm == perm
    requires var r := Walk(s.tree, base, true, base, rel, h.env.maxLinks, true);
      r.Found? && Get(s.tree, r.path) == Some(f)
    modifies h
    ensures Outcome(h.w, ok) == CopyFile(h.env, f, dst, old(h.w))
    ensures Intact(h, s, dst)
  {
    CopyFileEffect(h.env, f, dst, h.w);
    KeepsIntact(s, h.w.nodes, CopyFile(h.env, f, dst, h.w).w.nodes, dst);
    WalkConfined(s.tree, h.w.nodes, base, base, rel, h.env.maxLinks, true);
    WalkStays(s.tree, base, base, rel, h.env.maxLinks, true);
    ghost var m := h.w.nodes;
    assert Get(m, Walk(s.tree, base, true, base, rel, h.env.maxLinks, true).path) == Some(f);
    var src := h.RootLookup(base, rel, true);
    if src.None? {
      return false;
    }
    OpenFileEffect(h.env, h.w, dst, perm);
    var dstFile := h.OpenFile(dst, perm);
    if dstFile.None? {
      return false;
    }
    assert src.value != dst;
    var data := Contents(h.w.nodes, src.value);
    assert data == f.data;
    ok := h.Write(dstFile.value, data);
    if ok {
      ok := h.Chmod(dst, perm);
    }
  }

  method CopyDirConfinedIn(h: Host, base: Path, rel: seq<string>, dst: Path, perm: nat, ghost s: Source, ghost at: Path)
    returns (ok: bool)
    requires s.base == base && Intact(h, s, dst) && NoSlashes(rel)
    requires var r := Walk(s.tree, base, true, base, rel, h.env.maxLinks, true); r.Found? && r.path == at
    requires Walk(s.tree, base, true, base, CleanRel(rel), h.env.maxLinks, true) == Found(at, s.left)
      && IsDir(s.tree, at)
    modifies h
    ensures Outcome(h.w, ok) == CopyDir(h.env, s, at, dst, perm, old(h.w))
    ensures Intact(h, s, dst)
    decreases Below(s.tree, at)
  {
    hide CleanRel;
    ghost var w0 := h.w;
    DirKeeps(h.env, s, at, dst, perm, h.w);
    KeepsIntact(s, h.w.nodes, CopyDir(h.env, s, at, dst, perm, h.w).w.nodes, dst);
    MakeDstEffect(h.env, dst, perm, h.w);
    ok := h.MkdirAll(dst, perm);
    if !ok {
      return;
    }
    ok := h.Chmod(dst, perm);
    if !ok {
      return;
    }
    ghost var m1 := h.w.nodes;
    KeepsIntact(s, w0.nodes, m1, dst);
    WalkConfined(s.tree, m1, base, base, rel, h.env.maxLinks, true);
    WalkStays(s.tree, base, base, rel, h.env.maxLinks, true);
    assert Get(m1, at) == Get(s.tree, at);
    var dir := h.RootLookup(base, rel, true);
    if dir.None? {
      return false;
    }
    var names;
    ok, names := h.ReadDir(dir.value);
    if !ok {
      return;
    }
    ListedSame(s, Source(m1, base, s.left), at);
    ListingReal(h.env, s.tree, at);
    assert Get(m1, dst) == Some(Dir(perm));
    ghost var w1 := h.w;
    var i := 0;
    while i < |names|
      invariant 0 <= i <= |names|
      invariant Intact(h, s, dst) && IsDir(h.w.nodes, dst)
      invariant CopyEntries(h.env, s, at, dst, names, w1) == CopyEntries(h.env, s, at, dst, names[i..], h.w)
    {
      assert names[i..][0] == names[i] && names[i..][1..] == names[i + 1..];
      ok := CopyEntryConfined(h, base, rel, dst, names[i], s, at);
      if !ok {
        return;
      }
      i := i + 1;
    }
    ok := true;
  }

  method CopyEntryConfined(h: Host, base: Path, rel: seq<string>, dst: Path, name: string, ghost s: Source,
                           ghost at: Path)
    returns (ok: bool)
    requires s.base == base && Intact(h, s, dst) && IsDir(h.w.nodes, dst) && NoSlashes(rel)
    requires Walk(s.tree, base, true, base, CleanRel(rel), h.env.maxLinks, true) == Found(at, s.left)
      && IsDir(s.tree, at)
    requires Real(name) && at + [name] in s.tree
    modifies h
    ensures Outcome(h.w, ok) == CopyEntry(h.env, s, at, dst, name, old(h.w))
    ensures Intact(h, s, dst) && IsDir(h.w.nodes, dst)
    decreases Below(s.tree, at), 0
  {
    ghost var k, m0 := at + [name], h.w.nodes;
    var childRel := CleanRel(rel + [name]);
    CleanRelEntry(rel, name);
    var childDst := dst + [name];
    EntryKeeps(h.env, s, at, dst, name, h.w);
    KeepsUp(m0, CopyEntry(h.env, s, at, dst, name, h.w).w.nodes, dst, name);
    KeepsIntact(s, m0, CopyEntry(h.env, s, at, dst, name, h.w).w.nodes, dst);
    NoLinksDown(m0, dst, name);
    ChildDisjoint(base, dst, name);
    ChildLookup(s, CleanRel(rel), at, name, h.env.maxLinks);
    WalkConfined(s.tree, m0, base, base, childRel, h.env.maxLinks, false);
    WalkConfined(s.tree, m0, base, base, childRel, h.env.maxLinks, true);
    WalkStays(s.tree, base, base, childRel, h.env.maxLinks, false);
    WalkStays(s.tree, base, base, childRel, h.env.maxLinks, true);
    WalkTarget(s.tree, base, at, [name], s.left);
    assert Get(m0, k) == Get(s.tree, k);
    var info := h.RootLookup(base, childRel, false);
    if info.None? {
      return false;
    }
    match h.w.nodes[info.value]
    case Link(_) =>
      var target := h.RootLookup(base, childRel, true);
      if target.None? || h.w.nodes[target.value].Dir? {
        return false;
      }
      ok := CopyFileConfined(h, base, childRel, childDst, h.w.nodes[target.value].perm, s, Resolve(s, k).value);
    case Dir(perm) =>
      BelowShrinks(s.tree, at, name);
      ok := CopyDirConfinedIn(h, base, childRel, childDst, perm, s, k);
    case File(_, perm) =>
      ok := CopyFileConfined(h, base, childRel, childDst, perm, s, s.tree[k]);
  }
}
