/**
  CopyDirConfined against the copy it replaces, and the size that is measured after either.
 */
module PlainTheorems {
  import opened Paths
  import opened Os
  import opened Frames
  import opened Confined
  import opened ConfinedCopy
  import opened ConfinedAccept
  import opened ConfinedLocal
  import opened ConfinedHost
  import opened ConfinedTheorems
  import opened PlainCopy
  import opened PlainMerge
  import opened ExtractMeaning
  import opened UnpackResult

  /** A node as CopyDir makes it: the umask applies to directories. */
  function Unmasked(env: Env, node: Option<Node>): Option<Node> {
    if node.Some? && node.value.Dir? then Some(Dir(env.masked(node.value.perm))) else node
  }

  /** A destination without symlinks, beside the directory that the source path leads to. */
  ghost predicate Startable(env: Env, o: Origin, dst: Path, w: World) {
    && FairListing(env) && WF(w.nodes) && o.tree == w.nodes
    && NoLinks(w.nodes, dst) && AllReal(dst) && Disjoint(o.at, dst)
    && IsDir(o.tree, o.at) && LeadsTo(env, o.tree, o.src, o.at)
  }

  lemma StartIsTarget(env: Env, o: Origin, dst: Path, w: World)
    requires Startable(env, o, dst, w)
    ensures Target(env, o, dst, dst, w.nodes)
  {
    hide Locate;
    KeepsSelf(w.nodes, dst);
  }

  /** A successful CopyDir, under any faults it survived: the destination is the old one merged
      with the source, whose symlinks are replaced by the files they lead to. */
  lemma CopyDirMerges(env: Env, o: Origin, dst: Path, w: World)
    requires Startable(env, o, dst, w) && LinksSettled(env, o, dst)
    requires PlainDir(env, o, dst, w).ok
    ensures LinksLead(env, o, dst) && Merged(env, o, w.nodes, PlainDir(env, o, dst, w).w.nodes, dst)
  {
    hide Locate, Keeps;
    StartIsTarget(env, o, dst, w);
    DirLed(env, o, dst, dst, w);
    DirMerged(env, o, dst, dst, w);
  }

  /** A fault-free CopyDir into an absent destination succeeds exactly when only directories are
      on the way to it and every symlink leads to a file. */
  lemma CopyDirAccepts(env: Env, o: Origin, dst: Path, w: World)
    requires Startable(env, o, dst, w) && LinksSettled(env, o, dst) && NoFault(env) && dst !in w.nodes
    ensures PlainDir(env, o, dst, w).ok <==> DirsOnWay(w.nodes, dst) && LinksLead(env, o, dst)
  {
    hide Locate, Keeps;
    StartIsTarget(env, o, dst, w);
    if LinksLead(env, o, dst) {
      DirAccepted(env, o, dst, dst, w);
    }
    if PlainDir(env, o, dst, w).ok {
      DirLed(env, o, dst, dst, w);
    }
  }

  // ------------------------------------------------------------------ against the confined copy

  /** src leads to the directory that a confined copy selects, with no fewer symlinks left to
      follow than that copy has. */
  ghost predicate SamePlace(env: Env, m: Tree, src: seq<string>, at: Path, left: nat) {
    var r := Locate(env, m, src, true);
    r.Found? && r.path == at && left <= r.left
  }

  /** A symlink that the confined copy resolves leads to the same file from src. */
  lemma ResolvedLeads(env: Env, s: Source, src: seq<string>, at: Path, dst: Path, k: Path)
    requires WF(s.tree) && s.base <= at && IsDir(s.tree, at) && Disjoint(s.base, dst)
    requires SamePlace(env, s.tree, src, at, s.left)
    requires k in s.tree && at <= k && s.tree[k].Link? && Resolve(s, k).Some? && Resolve(s, k).value.File?
    ensures var o := Origin(s.tree, src, at);
      LinkLeads(env, o, dst, k) && Followed(env, o, k) == Deref(s, k)
  {
    hide Walk;
    ParentPrefix(at, k);
    var up, name := Parent(k), Last(k);
    var mid := up[|at|..];
    assert at + mid == up && k[|at|..] == mid + [name];
    var r := Locate(env, s.tree, src, true);
    Ancestors(s.tree, up, k);
    PathDown(env, s.tree, src, at, mid);
    WalkOn(s.tree, [], false, [], src + mid, [name], env.maxLinks, true);
    assert src + mid + [name] == src + k[|at|..];
    WalkReleased(s.tree, s.base, up, [name], s.left, r.left, true);
    WalkStays(s.tree, s.base, up, [name], s.left, true);
    var q := Walk(s.tree, s.base, true, up, [name], s.left, true).path;
    Comparable(s.base, dst, q);
  }

  /** A path goes on through real directories. */
  lemma PathDown(env: Env, m: Tree, src: seq<string>, at: Path, mid: Path)
    requires WF(m) && IsDir(m, at) && IsDir(m, at + mid) && AllReal(mid)
    requires var r := Locate(env, m, src, true); r.Found? && r.path == at
    ensures Locate(env, m, src + mid, true) == Found(at + mid, Locate(env, m, src, true).left)
  {
    hide Walk;
    var left := Locate(env, m, src, true).left;
    if mid == [] {
      assert src + mid == src && at + mid == at;
    } else {
      WalkOn(m, [], false, [], src, mid, env.maxLinks, true);
      forall q | q in m && q <= at + mid
        ensures !m[q].Link?
      {
        Ancestors(m, q, at + mid);
      }
      WalkClear(m, at, mid, left, true);
    }
  }

  lemma ResolvedAllLead(env: Env, s: Source, src: seq<string>, at: Path, dst: Path)
    requires WF(s.tree) && s.base <= at && IsDir(s.tree, at) && Disjoint(s.base, dst)
    requires SamePlace(env, s.tree, src, at, s.left) && LinksResolve(s, at)
    ensures LinksLead(env, Origin(s.tree, src, at), dst)
    ensures forall k :: k in s.tree && at <= k ==> Followed(env, Origin(s.tree, src, at), k) == Deref(s, k)
  {
    hide Resolve, Locate, LinkLeads;
    forall k | k in s.tree && at <= k
      ensures s.tree[k].Link? ==> LinkLeads(env, Origin(s.tree, src, at), dst, k)
      ensures Followed(env, Origin(s.tree, src, at), k) == Deref(s, k)
    {
      if s.tree[k].Link? {
        ResolvedLeads(env, s, src, at, dst, k);
      }
    }
  }

  /** Every symlink at or below `at` leads, within the root, to a file. */
  ghost predicate LinksResolve(s: Source, at: Path) {
    forall k :: k in s.tree && at <= k && s.tree[k].Link? ==> Resolve(s, k).Some? && Resolve(s, k).value.File?
  }

  /** What a confined copy has selected lies in the root, and beside the destination. */
  lemma SelectedStarts(env: Env, env2: Env, w: World, base: Path, rel: seq<string>, dst: Path, src: seq<string>)
    requires Callable(env, w, base, rel, dst) && SelectsDir(env, w, base, rel) && FairListing(env2)
    requires SamePlace(env2, w.nodes, src, Selected(env, w, base, rel).path, SourceOf(env, w, base, rel).left)
    ensures var at := Selected(env, w, base, rel).path;
      base <= at && Startable(env2, Origin(w.nodes, src, at), dst, w)
  {
    hide Walk, Locate;
    var at := Selected(env, w, base, rel).path;
    WalkStays(w.nodes, base, base, rel, env.maxLinks, false);
    Comparable(base, dst, at);
    Comparable(base, at, dst);
  }

  /** What has been copied was copyable: the symlinks resolved, and the way was free. */
  lemma {:induction false} DirResolved(env: Env, s: Source, at: Path, dst: Path, perm: nat, w: World)
    requires Ready(env, s, dst, w) && IsDir(s.tree, at)
    requires CopyDir(env, s, at, dst, perm, w).ok
    ensures LinksResolve(s, at) && DirsOnWay(w.nodes, dst)
    decreases Below(s.tree, at), 2
  {
    hide Resolve;
    MakeDstEffect(env, dst, perm, w);
    ListingReal(env, s.tree, at);
    var made := MakeDst(env, dst, perm, w);
    var names := env.listing(at, Names(s.tree, at));
    assert Get(made.w.nodes, dst) == Some(Dir(perm));
    EntriesResolved(env, s, at, dst, names, ReadDir(env, made.w).w);
    AllResolve(s, at, names);
    WasFree(w.nodes, made.w.nodes, dst);
  }

  lemma AllResolve(s: Source, at: Path, names: seq<string>)
    requires WF(s.tree) && IsDir(s.tree, at)
    requires forall n :: at + [n] in s.tree ==> n in names
    requires forall n :: n in names ==> EntryResolves(s, at, n)
    ensures LinksResolve(s, at)
  {
    hide Resolve;
    forall k | k in s.tree && at <= k && k != at
      ensures s.tree[k].Link? ==> Resolve(s, k).Some? && Resolve(s, k).value.File?
    {
      var n := k[|at|];
      assert at + [n] == k[..|at| + 1];
      Ancestors(s.tree, at + [n], k);
      assert EntryResolves(s, at, n);
    }
  }

  lemma WasFree(m: Tree, m2: Tree, dst: Path)
    requires Keeps(m, m2, dst) && IsDir(m2, dst)
    ensures DirsOnWay(m, dst)
  {
    forall q | q in m && q <= dst
      ensures m[q].Dir?
    {
      Ancestors(m2, q, dst);
    }
  }

  ghost predicate EntryResolves(s: Source, at: Path, name: string) {
    forall k :: k in s.tree && at + [name] <= k && s.tree[k].Link? ==> Resolve(s, k).Some? && Resolve(s, k).value.File?
  }

  lemma {:induction false} EntriesResolved(env: Env, s: Source, at: Path, dst: Path, names: seq<string>, w: World)
    requires Ready(env, s, dst, w) && RealNames(names) && IsDir(w.nodes, dst)
    requires CopyEntries(env, s, at, dst, names, w).ok
    ensures forall n :: n in names ==> EntryResolves(s, at, n)
    decreases Below(s.tree, at), 1, |names|
  {
    hide Resolve, EntryResolves;
    if names != [] {
      EntryResolved(env, s, at, dst, names[0], w);
      EntryKeeps(env, s, at, dst, names[0], w);
      var r := CopyEntry(env, s, at, dst, names[0], w);
      KeepsUp(w.nodes, r.w.nodes, dst, names[0]);
      EntriesResolved(env, s, at, dst, names[1..], r.w);
    }
  }

  lemma {:induction false} EntryResolved(env: Env, s: Source, at: Path, dst: Path, name: string, w: World)
    requires Ready(env, s, dst, w) && Real(name) && IsDir(w.nodes, dst)
    requires CopyEntry(env, s, at, dst, name, w).ok
    ensures EntryResolves(s, at, name)
    decreases Below(s.tree, at), 0
  {
    hide Resolve;
    var k := at + [name];
    NoLinksDown(w.nodes, dst, name);
    if s.tree[k].Dir? {
      BelowShrinks(s.tree, at, name);
      DirResolved(env, s, k, dst + [name], s.tree[k].perm, Tick(w));
    } else {
      forall q | q in s.tree && k <= q
        ensures q == k
      {
        NoneBelow(s.tree, k, q);
      }
    }
  }

  /** The confined copy refines the copy it replaces.  Whatever it accepts into an absent
      destination CopyDir copies too unless a call fails, and with the same result: the same
      names, contents and modes of files; only the umask shows in the directories. */
  lemma ConfinedRefinesPlain(env: Env, env2: Env, w: World, w2: World, base: Path, rel: seq<string>, dst: Path,
                             src: seq<string>)
    requires Callable(env, w, base, rel, dst) && dst !in w.nodes
    requires RunOpened(env, w, base, rel, dst).ok
    requires FairListing(env2) && w2.nodes == w.nodes
    requires SelectsDir(env, w, base, rel) ==>
      SamePlace(env2, w.nodes, src, Selected(env, w, base, rel).path, SourceOf(env, w, base, rel).left)
    ensures SelectsDir(env, w, base, rel)
    ensures var confined := RunOpened(env, w, base, rel, dst);
      var plain := PlainDir(env2, Origin(w.nodes, src, Selected(env, w, base, rel).path), dst, w2);
      && (NoFault(env2) ==> plain.ok)
      && (plain.ok ==> forall p {:trigger Get(plain.w.nodes, p)} :: dst <= p ==>
            Get(plain.w.nodes, p) == Unmasked(env2, Get(confined.w.nodes, p)))
      && (plain.ok ==> forall p {:trigger Get(plain.w.nodes, p)} :: !(p <= dst) && !(dst <= p) ==>
            Get(plain.w.nodes, p) == Get(confined.w.nodes, p))
  {
    hide Walk, Locate, Resolve, NoLinks, LinkLeads, Followed;
    var s, at := SourceOf(env, w, base, rel), Selected(env, w, base, rel).path;
    var o := Origin(w.nodes, src, at);
    SelectedStarts(env, env2, w, base, rel, dst, src);
    DirResolved(env, s, at, dst, s.tree[at].perm, Tick(w));
    ResolvedAllLead(env2, s, src, at, dst);
    DirLaid(env, s, at, dst, s.tree[at].perm, Tick(w));
    StartIsTarget(env2, o, dst, w2);
    if NoFault(env2) {
      DirAccepted(env2, o, dst, dst, w2);
    }
    if PlainDir(env2, o, dst, w2).ok {
      DirMerged(env2, o, dst, dst, w2);
      MergedIsLaid(env, env2, s, o, w.nodes, RunOpened(env, w, base, rel, dst).w.nodes,
        PlainDir(env2, o, dst, w2).w.nodes, dst);
    }
  }

  lemma MergedIsLaid(env: Env, env2: Env, s: Source, o: Origin, m: Tree, c: Tree, p2: Tree, dst: Path)
    requires WF(m) && dst !in m && o.tree == s.tree && IsDir(s.tree, o.at) && LinksResolve(s, o.at)
    requires forall k :: k in s.tree && o.at <= k ==> Followed(env2, o, k) == Deref(s, k)
    requires Laid(env, s, m, c, o.at, dst, s.tree[o.at].perm) && Merged(env2, o, m, p2, dst)
    ensures forall p {:trigger Get(p2, p)} :: dst <= p ==> Get(p2, p) == Unmasked(env2, Get(c, p))
    ensures forall p {:trigger Get(p2, p)} :: !(p <= dst) && !(dst <= p) ==> Get(p2, p) == Get(c, p)
  {
    hide Resolve, Locate, Followed;
    var at := o.at;
    forall p
      ensures dst <= p ==> Get(p2, p) == Unmasked(env2, Get(c, p))
      ensures !(p <= dst) && !(dst <= p) ==> Get(p2, p) == Get(c, p)
    {
      assert Get(c, p) ==
        if dst <= p && Image(at, dst, p) in s.tree then Some(Deref(s, Image(at, dst, p)))
        else if p in m then Some(m[p]) else if p < dst then Some(Dir(env.masked(s.tree[at].perm))) else None;
      if dst <= p {
        assert at <= Image(at, dst, p);
        if p in m {
          Ancestors(m, dst, p);
        }
      }
    }
  }

  /** On a source without symlinks, without faults and into an absent destination, the two
      succeed on the same inputs. */
  lemma SameAcceptanceWithoutLinks(env: Env, w: World, base: Path, rel: seq<string>, dst: Path, src: seq<string>)
    requires Callable(env, w, base, rel, dst) && NoFault(env) && dst !in w.nodes
    requires SelectsDir(env, w, base, rel) && NoLinks(w.nodes, Selected(env, w, base, rel).path)
    requires SamePlace(env, w.nodes, src, Selected(env, w, base, rel).path, SourceOf(env, w, base, rel).left)
    ensures RunOpened(env, w, base, rel, dst).ok <==>
      PlainDir(env, Origin(w.nodes, src, Selected(env, w, base, rel).path), dst, w).ok
  {
    hide Walk, Locate, Resolve;
    var s, at := SourceOf(env, w, base, rel), Selected(env, w, base, rel).path;
    SelectedStarts(env, env, w, base, rel, dst, src);
    CopyAccepts(env, w, base, rel, dst);
    CopyDirAccepts(env, Origin(w.nodes, src, at), dst, w);
    forall k | k in s.tree && at <= k
      ensures NodeFits(s, w.nodes, at, dst, k)
    {
      if dst + k[|at|..] in w.nodes {
        Ancestors(w.nodes, dst, dst + k[|at|..]);
      }
    }
  }

  /** Where they part: an absolute symlink to a file that is not in the destination is refused by
      the confined copy, while CopyFile puts that file's contents and mode at the destination. */
  lemma AbsoluteLinks(env: Env, s: Source, src: seq<string>, at: Path, name: string, dst: Path, w: World)
    requires Startable(env, Origin(w.nodes, src, at), dst, w) && w.nodes == s.tree && NoFault(env)
    requires IsDir(w.nodes, dst) && dst + [name] !in w.nodes
    requires at + [name] in w.nodes && w.nodes[at + [name]].Link? && Rooted(w.nodes[at + [name]].target)
    requires NameLeads(env, Origin(w.nodes, src, at), dst, name)
    ensures !CopyEntry(env, s, at, dst, name, w).ok
    ensures var r, from := PlainFile(env, src + [name], dst + [name], w), Locate(env, w.nodes, src + [name], true);
      from.Found? && from.path in w.nodes && r.ok && r.w.nodes == w.nodes[dst + [name] := w.nodes[from.path]]
  {
    var k, d, o := at + [name], dst + [name], Origin(w.nodes, src, at);
    assert Parent(k) == at && Last(k) == name && Parent(d) == dst && k[|at|] == name;
    AbsoluteRefused(s, k);
    hide Walk, Locate, Resolve;
    StartIsTarget(env, o, dst, w);
    TargetChild(env, o, dst, dst, w.nodes, name);
    PlainFileEffect(env, o, dst, name, d, w);
    assert PathTo(o, k) == src + [name];
    EntryLookup(env, o, dst, w.nodes, name);
  }

  lemma AbsoluteRefused(s: Source, k: Path)
    requires k in s.tree && k != [] && Real(Last(k)) && s.tree[k].Link? && Rooted(s.tree[k].target)
    ensures Resolve(s, k).None?
  {
    assert Parent(k) + [Last(k)] == k;
  }

  // ------------------------------------------------------------------ sizes

  /** The names, contents and kinds of the dereferenced source. */
  ghost function SourceShapes(s: Source, at: Path): Skeleton {
    map k | k in s.tree && at <= k :: ShapeOf(Deref(s, k))
  }

  lemma {:induction false} SizeMoved(t: Skeleton, u: Skeleton, at: Path, dst: Path)
    requires forall k :: k in t ==> at <= k && dst + k[|at|..] in u
    requires forall p :: p in u ==> dst <= p && Image(at, dst, p) in t && u[p] == t[Image(at, dst, p)]
    ensures Size(u) == Size(t)
    decreases |t|
  {
    if t == map[] {
      assert u == map[];
    } else {
      var k := Pick(t);
      var p := dst + k[|at|..];
      assert Image(at, dst, p) == k;
      SizeWithout(u, p);
      forall k2 | k2 in t - {k}
        ensures dst + k2[|at|..] != p
      {
        assert k2 == at + (dst + k2[|at|..])[|dst|..];
      }
      forall p2 | p2 in u - {p}
        ensures Image(at, dst, p2) != k
      {
        assert p2 == dst + Image(at, dst, p2)[|at|..];
      }
      SizeMoved(t - {k}, u - {p}, at, dst);
    }
  }

  lemma MovedShapes(t: Skeleton, m: Tree, at: Path, dst: Path)
    requires forall k :: k in t ==> at <= k
    requires forall p {:trigger Get(m, p)} :: dst <= p ==>
      && (Get(m, p).Some? <==> Image(at, dst, p) in t)
      && (Get(m, p).Some? ==> ShapeOf(Get(m, p).value) == t[Image(at, dst, p)])
    ensures Size(Sub(Shapes(m), dst)) == Size(t)
  {
    var u := Sub(Shapes(m), dst);
    forall k | k in t
      ensures dst + k[|at|..] in u
    {
      var p := dst + k[|at|..];
      assert Image(at, dst, p) == k;
      assert Get(m, p).Some?;
    }
    forall p | p in u
      ensures Image(at, dst, p) in t && u[p] == t[Image(at, dst, p)]
    {
      assert Get(m, p).Some?;
    }
    SizeMoved(t, u, at, dst);
  }

  lemma AbsentHere(m: Tree, dst: Path)
    requires WF(m) && dst !in m
    ensures forall p :: dst <= p ==> p !in m
  {
    forall p | dst <= p
      ensures p !in m
    {
      if p in m {
        Ancestors(m, dst, p);
      }
    }
  }

  /** After a successful confined copy into an absent destination, the size measured there is the
      sum of the sizes of the dereferenced source files. */
  lemma ConfinedSize(env: Env, w: World, base: Path, rel: seq<string>, dst: Path)
    requires Callable(env, w, base, rel, dst) && dst !in w.nodes && RunOpened(env, w, base, rel, dst).ok
    ensures SelectsDir(env, w, base, rel)
    ensures var s, at := SourceOf(env, w, base, rel), Selected(env, w, base, rel).path;
      Size(Sub(Shapes(RunOpened(env, w, base, rel, dst).w.nodes), dst)) == Size(SourceShapes(s, at))
  {
    hide Walk, Locate, Resolve, NoLinks;
    var s, at := SourceOf(env, w, base, rel), Selected(env, w, base, rel).path;
    AbsentHere(w.nodes, dst);
    DirLaid(env, s, at, dst, s.tree[at].perm, Tick(w));
    var m, t := RunOpened(env, w, base, rel, dst).w.nodes, SourceShapes(s, at);
    forall p | dst <= p
      ensures Get(m, p).Some? <==> Image(at, dst, p) in t
      ensures Get(m, p).Some? ==> ShapeOf(Get(m, p).value) == t[Image(at, dst, p)]
    {
    }
    MovedShapes(t, m, at, dst);
  }

  /** What is copied from o, in names, contents and kinds. */
  ghost function FollowedShapes(env: Env, o: Origin): Skeleton {
    map k | k in o.tree && o.at <= k :: ShapeOf(Followed(env, o, k))
  }

  /** The same after a successful CopyDir, symlinks counting with the files they lead to. */
  lemma CopiedSize(env: Env, o: Origin, dst: Path, w: World)
    requires Startable(env, o, dst, w) && LinksSettled(env, o, dst) && dst !in w.nodes && PlainDir(env, o, dst, w).ok
    ensures Size(Sub(Shapes(PlainDir(env, o, dst, w).w.nodes), dst)) == Size(FollowedShapes(env, o))
  {
    hide Walk, Locate, NoLinks, Followed;
    AbsentHere(w.nodes, dst);
    CopyDirMerges(env, o, dst, w);
    var m, t := PlainDir(env, o, dst, w).w.nodes, FollowedShapes(env, o);
    forall p | dst <= p
      ensures Get(m, p).Some? <==> Image(o.at, dst, p) in t
      ensures Get(m, p).Some? ==> ShapeOf(Get(m, p).value) == t[Image(o.at, dst, p)]
    {
      if Image(o.at, dst, p) in o.tree {
        DirsFollowed(env, o, Image(o.at, dst, p));
      }
    }
    MovedShapes(t, m, o.at, dst);
  }

  lemma DirsFollowed(env: Env, o: Origin, k: Path)
    requires o.at <= k && k in o.tree
    ensures !o.tree[k].Link? ==> Followed(env, o, k) == o.tree[k]
  {
  }
}
