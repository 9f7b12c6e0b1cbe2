/**
  What CopyDir leaves behind on every source whose symlinks lead to files outside the
  destination, and when it succeeds.
 */
module PlainMerge {
  import opened Paths
  import opened Os
  import opened RawPaths
  import opened Frames
  import opened Confined
  import opened ConfinedCopy
  import opened ConfinedHost
  import opened PlainCopy

  // ------------------------------------------------------------------ the setting

  /** A copy from o to the destination top is under way: the source leads to a directory beside
      the destination, the tree it began with had no symlink there, and the present tree m is that
      tree with changes at the destination only. */
  ghost predicate Copying(env: Env, o: Origin, top: Path, m: Tree) {
    && FairListing(env) && WF(o.tree) && WF(m)
    && NoLinks(o.tree, top) && AllReal(top) && Disjoint(o.at, top)
    && Keeps(o.tree, m, top)
    && IsDir(o.tree, o.at) && LeadsTo(env, o.tree, o.src, o.at)
  }

  /** The path of the place k of the source. */
  function PathTo(o: Origin, k: Path): seq<string>
    requires o.at <= k
  {
    o.src + k[|o.at|..]
  }

  /** Every symlink of the source leads to a file, inside the source or anywhere else, but not in
      the destination. */
  ghost predicate LinksLead(env: Env, o: Origin, top: Path) {
    forall k :: k in o.tree && o.at <= k && o.tree[k].Link? ==> LinkLeads(env, o, top, k)
  }

  ghost predicate LinkLeads(env: Env, o: Origin, top: Path, k: Path)
    requires o.at <= k
  {
    var r := Locate(env, o.tree, PathTo(o, k), true);
    r.Found? && r.path in o.tree && o.tree[r.path].File? && !(top <= r.path)
  }

  ghost predicate NameLeads(env: Env, o: Origin, top: Path, name: string) {
    var k := o.at + [name];
    k in o.tree && (o.tree[k].Link? ==> o.at <= k && LinkLeads(env, o, top, k))
  }

  /** The node at k, or the file it leads to. */
  ghost function Followed(env: Env, o: Origin, k: Path): Node
    requires o.at <= k && k in o.tree
  {
    var r := Locate(env, o.tree, PathTo(o, k), true);
    if o.tree[k].Link? && r.Found? && r.path in o.tree then o.tree[r.path] else o.tree[k]
  }

  lemma ChildPath(o: Origin, name: string, k: Path)
    requires o.at + [name] <= k
    ensures o.at <= k && PathTo(Child(o, name), k) == PathTo(o, k)
  {
    var c := o.at + [name];
    assert o.at == c[..|o.at|] == k[..|o.at|];
    assert k[|o.at|..] == [name] + k[|c|..];
  }

  lemma LinksBelow(env: Env, o: Origin, top: Path, name: string)
    requires LinksLead(env, o, top)
    ensures LinksLead(env, Child(o, name), top)
  {
    hide Locate;
    forall k | k in o.tree && o.at + [name] <= k && o.tree[k].Link?
      ensures LinkLeads(env, Child(o, name), top, k)
    {
      ChildPath(o, name, k);
      assert LinkLeads(env, o, top, k);
    }
  }

  lemma LeadsByName(env: Env, o: Origin, top: Path, name: string)
    requires LinksLead(env, o, top) && o.at + [name] in o.tree
    ensures NameLeads(env, o, top, name)
  {
    hide LinkLeads;
    assert o.at <= o.at + [name];
  }

  /** What changes at a place below the destination changes at the destination. */
  lemma KeepsWider(m: Tree, m1: Tree, m2: Tree, top: Path, dst: Path)
    requires Keeps(m, m1, top) && Keeps(m1, m2, dst) && top <= dst
    ensures Keeps(m, m2, top)
  {
    forall p
      ensures top <= p || Get(m2, p) == Get(m1, p) || (p < top && p !in m1 && IsDir(m2, p))
    {
      assert dst <= p || Get(m2, p) == Get(m1, p) || (p < dst && p !in m1 && IsDir(m2, p));
      Comparable(top, p, dst);
      if dst <= p {
        assert top == dst[..|top|] == p[..|top|];
      }
    }
    forall p | p in m2 && (p <= top || top <= p)
      ensures !m2[p].Link?
    {
      assert dst <= p || Get(m2, p) == Get(m1, p) || (p < dst && p !in m1 && IsDir(m2, p));
    }
    KeepsTrans(m, m1, m2, top);
  }

  lemma KeepsCopying(env: Env, o: Origin, top: Path, dst: Path, m: Tree, m2: Tree)
    requires Copying(env, o, top, m) && top <= dst && Keeps(m, m2, dst)
    ensures Copying(env, o, top, m2)
  {
    hide Locate;
    KeepsWider(o.tree, m, m2, top, dst);
  }

  /** The source is still as it was. */
  lemma SourceKept(env: Env, o: Origin, top: Path, m: Tree, k: Path)
    requires Copying(env, o, top, m) && o.at <= k
    ensures Get(m, k) == Get(o.tree, k)
  {
    hide Locate;
    assert top <= k || Get(m, k) == Get(o.tree, k) || (k < top && k !in o.tree && IsDir(m, k));
    Comparable(o.at, top, k);
  }

  lemma CopyingChild(env: Env, o: Origin, top: Path, m: Tree, name: string)
    requires Copying(env, o, top, m) && IsDir(o.tree, o.at + [name])
    ensures Copying(env, Child(o, name), top, m)
  {
    ChildLeads(env, o, name);
    hide Locate;
    ChildDisjoint(top, o.at, name);
  }

  /** The destination of the copy, or a place below it. */
  ghost predicate Target(env: Env, o: Origin, top: Path, dst: Path, m: Tree) {
    Copying(env, o, top, m) && top <= dst && AllReal(dst) && NoLinks(m, dst)
  }

  lemma TargetChild(env: Env, o: Origin, top: Path, dst: Path, m: Tree, name: string)
    requires Target(env, o, top, dst, m) && Real(name)
    ensures Target(env, o, top, dst + [name], m)
  {
    hide Locate;
    NoLinksDown(m, dst, name);
    assert top == dst[..|top|] == (dst + [name])[..|top|];
  }

  lemma KeepsTarget(env: Env, o: Origin, top: Path, dst: Path, m: Tree, m2: Tree)
    requires Target(env, o, top, dst, m) && Keeps(m, m2, dst)
    ensures Target(env, o, top, dst, m2)
  {
    hide Locate;
    KeepsCopying(env, o, top, dst, m, m2);
  }

  // ------------------------------------------------------------------ what paths of the source lead to

  /** What is found stays found in the same place while only a destination without symlinks
      changes. */
  lemma WalkStable(m: Tree, m2: Tree, top: Path, cur: Path, todo: seq<string>, links: nat, follow: bool)
    requires NoLinks(m, top) && Keeps(m, m2, top)
    requires Walk(m, [], false, cur, todo, links, follow).Found?
    ensures Walk(m2, [], false, cur, todo, links, follow) == Walk(m, [], false, cur, todo, links, follow)
  {
    hide Walk;
    forall p | p in m
      ensures p in m2 && SameKind(m[p], m2[p])
    {
      assert top <= p || Get(m2, p) == Get(m, p) || (p < top && p !in m && IsDir(m2, p));
    }
    WalkKept(m, m2, cur, todo, links, follow);
  }

  /** What is found inside a root is found without confinement as well. */
  lemma {:induction false} WalkReleased(m: Tree, base: Path, cur: Path, todo: seq<string>, links: nat, more: nat,
                                        follow: bool)
    requires links <= more && Walk(m, base, true, cur, todo, links, follow).Found?
    ensures var r := Walk(m, [], false, cur, todo, more, follow);
      r.Found? && r.path == Walk(m, base, true, cur, todo, links, follow).path
    decreases links, |todo|
  {
    if todo != [] {
      var c, rest := todo[0], todo[1..];
      if c == "" || c == "." {
        WalkReleased(m, base, cur, rest, links, more, follow);
      } else if c == ".." {
        WalkReleased(m, base, Parent(cur), rest, links, more, follow);
      } else {
        match m[cur + [c]]
        case Dir(_) => WalkReleased(m, base, cur + [c], rest, links, more, follow);
        case File(_, _) =>
        case Link(target) =>
          if !(rest == [] && !follow) {
            WalkReleased(m, base, cur, Split(target) + rest, links - 1, more - 1, follow);
          }
      }
    }
  }

  /** An entry that is no symlink is where its path leads. */
  lemma ChildLeads(env: Env, o: Origin, name: string)
    requires WF(o.tree) && IsDir(o.tree, o.at) && LeadsTo(env, o.tree, o.src, o.at)
    requires o.at + [name] in o.tree && !o.tree[o.at + [name]].Link?
    ensures LeadsTo(env, o.tree, o.src + [name], o.at + [name])
  {
    var k := o.at + [name];
    assert k[|o.at|] == name && Real(name);
    WalkOn(o.tree, [], false, [], o.src, [name], env.maxLinks, true);
  }

  /** The path of an entry leads to its followed node, outside the destination, now as at the
      beginning. */
  lemma EntryLookup(env: Env, o: Origin, top: Path, m: Tree, name: string)
    requires Copying(env, o, top, m) && NameLeads(env, o, top, name)
    ensures var r := Locate(env, m, o.src + [name], true);
      && r.Found? && r.path in m && !(top <= r.path)
      && m[r.path] == Followed(env, o, o.at + [name])
  {
    hide Walk;
    var k := o.at + [name];
    assert PathTo(o, k) == o.src + [name];
    if o.tree[k].Link? {
      assert LinkLeads(env, o, top, k);
    } else {
      ChildLeads(env, o, name);
      Comparable(o.at, top, k);
    }
    var q := Locate(env, o.tree, o.src + [name], true).path;
    WalkStable(o.tree, m, top, [], o.src + [name], env.maxLinks, true);
    assert top <= q || Get(m, q) == Get(o.tree, q) || (q < top && q !in o.tree && IsDir(m, q));
  }

  lemma DirLookup(env: Env, o: Origin, top: Path, m: Tree)
    requires Copying(env, o, top, m)
    ensures LeadsTo(env, m, o.src, o.at) && Get(m, o.at) == Some(o.tree[o.at])
  {
    hide Walk;
    WalkStable(o.tree, m, top, [], o.src, env.maxLinks, true);
    SourceKept(env, o, top, m, o.at);
  }

  // ------------------------------------------------------------------ files

  /** Copying a file, or through a symlink wherever it leads, puts the followed node there. */
  lemma PlainFileEffect(env: Env, o: Origin, top: Path, name: string, dst: Path, w: World)
    requires Target(env, o, top, dst, w.nodes) && NameLeads(env, o, top, name) && dst != []
    requires !o.tree[o.at + [name]].Dir?
    ensures var r, m, f := PlainFile(env, o.src + [name], dst, w), w.nodes, Followed(env, o, o.at + [name]);
      && f.File?
      && (r.ok ==> r.w.nodes == m[dst := f] && IsDir(m, Parent(dst)) && !IsDir(m, dst))
      && (NoFault(env) ==> (r.ok <==> IsDir(m, Parent(dst)) && !IsDir(m, dst)))
  {
    hide Locate, Walk;
    var m := w.nodes;
    EntryLookup(env, o, top, m, name);
    FollowedIsFile(env, o, top, name);
    OpenFileEffect(env, Tick(w), dst, 438);
    var f0 := OpenFile(env, Tick(w), dst, 438);
    var from := Locate(env, m, o.src + [name], true).path;
    if f0.file.Some? && !env.fault(w.tick) {
      FillEffect(env, o, top, name, from, dst, m, f0.w);
    }
  }

  lemma FollowedIsFile(env: Env, o: Origin, top: Path, name: string)
    requires NameLeads(env, o, top, name) && !o.tree[o.at + [name]].Dir?
    ensures Followed(env, o, o.at + [name]).File?
  {
    hide Locate;
    var k := o.at + [name];
    assert o.at <= k;
    if o.tree[k].Link? {
      assert LinkLeads(env, o, top, k);
    }
  }

  lemma FillEffect(env: Env, o: Origin, top: Path, name: string, from: Path, dst: Path, m: Tree, w: World)
    requires Target(env, o, top, dst, m) && NameLeads(env, o, top, name) && dst != []
    requires Followed(env, o, o.at + [name]).File?
    requires IsDir(m, Parent(dst)) && !IsDir(m, dst)
    requires !(top <= from) && Get(m, from) == Some(Followed(env, o, o.at + [name]))
    requires dst in w.nodes && w.nodes[dst].File? && w.nodes[dst].data == [] && w.nodes == m[dst := w.nodes[dst]]
    ensures var r, f := PlainFill(env, o.src + [name], from, dst, dst, w), Followed(env, o, o.at + [name]);
      && (r.ok ==> r.w.nodes == m[dst := f])
      && (NoFault(env) ==> r.ok)
  {
    hide Locate, Walk, Keeps, Followed, LinkLeads;
    var f := Followed(env, o, o.at + [name]);
    assert w.nodes[from] == f;
    WriteEffect(env, w, dst, f.data);
    var c := Write(env, w, dst, f.data);
    if c.ok {
      var g := c.w.nodes[dst];
      assert c.w.nodes == m[dst := g];
      assert [] + f.data == f.data;
      FileKeeps(m, dst, g);
      KeepsCopying(env, o, top, dst, m, c.w.nodes);
      EntryLookup(env, o, top, c.w.nodes, name);
      ChmodEffect(env, Tick(c.w), dst, f.perm);
      assert m[dst := g][dst := f] == m[dst := f];
    }
  }

  // ------------------------------------------------------------------ the merge

  /** The copy of the node k at place p: an existing directory keeps its mode, a new one has the
      source's as the umask leaves it. */
  ghost function Copied(env: Env, o: Origin, m: Tree, k: Path, p: Path): Node
    requires o.at <= k && k in o.tree
  {
    match o.tree[k]
    case Dir(perm) => if p in m then m[p] else Dir(env.masked(perm))
    case _ => Followed(env, o, k)
  }

  ghost predicate Merged(env: Env, o: Origin, m: Tree, m2: Tree, dst: Path) {
    forall p {:trigger Get(m2, p)} :: Get(m2, p) ==
      if dst <= p && Image(o.at, dst, p) in o.tree then Some(Copied(env, o, m, Image(o.at, dst, p), p))
      else if p in m then Some(m[p])
      else if p < dst && o.at in o.tree && o.tree[o.at].Dir? then Some(Dir(env.masked(o.tree[o.at].perm)))
      else None
  }

  ghost predicate MergedPart(env: Env, o: Origin, m: Tree, m2: Tree, dst: Path, names: seq<string>) {
    forall p {:trigger Get(m2, p)} :: Get(m2, p) ==
      if dst < p && p[|dst|] in names && Image(o.at, dst, p) in o.tree
      then Some(Copied(env, o, m, Image(o.at, dst, p), p))
      else Get(m, p)
  }

  lemma MergedFile(env: Env, o: Origin, m: Tree, dst: Path, name: string)
    requires WF(o.tree) && o.at + [name] in o.tree && !o.tree[o.at + [name]].Dir?
    ensures MergedPart(env, o, m, m[dst + [name] := Followed(env, o, o.at + [name])], dst, [name])
  {
    hide Locate, Followed;
    var k, d := o.at + [name], dst + [name];
    var m2 := m[d := Followed(env, o, k)];
    forall p
      ensures Get(m2, p) ==
        if dst < p && p[|dst|] in [name] && Image(o.at, dst, p) in o.tree
        then Some(Copied(env, o, m, Image(o.at, dst, p), p))
        else Get(m, p)
    {
      ImageOfChild(o.at, dst, name, p);
      if d <= p {
        NoneBelow(o.tree, k, Image(o.at, dst, p));
        if p == d {
          assert Image(o.at, dst, p) == k;
        } else {
          assert |Image(o.at, dst, p)| > |k|;
        }
      }
    }
  }

  lemma CopiedChild(env: Env, o: Origin, m: Tree, name: string, k: Path, p: Path)
    requires o.at + [name] <= k && k in o.tree
    ensures o.at <= k && Copied(env, Child(o, name), m, k, p) == Copied(env, o, m, k, p)
  {
    hide Locate;
    ChildPath(o, name, k);
  }

  lemma MergedChild(env: Env, o: Origin, m: Tree, m2: Tree, dst: Path, name: string)
    requires WF(m) && IsDir(m, dst)
    requires Merged(env, Child(o, name), m, m2, dst + [name])
    ensures MergedPart(env, o, m, m2, dst, [name])
  {
    hide Locate, Followed, Copied;
    var d := dst + [name];
    forall p
      ensures Get(m2, p) ==
        if dst < p && p[|dst|] in [name] && Image(o.at, dst, p) in o.tree
        then Some(Copied(env, o, m, Image(o.at, dst, p), p))
        else Get(m, p)
    {
      ImageOfChild(o.at, dst, name, p);
      if d <= p && Image(o.at, dst, p) in o.tree {
        CopiedChild(env, o, m, name, Image(o.at, dst, p), p);
      }
      if p < d {
        assert p == d[..|p|] == dst[..|p|];
        Ancestors(m, p, dst);
      }
    }
  }

  lemma MergedJoin(env: Env, o: Origin, m: Tree, m1: Tree, m2: Tree, dst: Path, names: seq<string>)
    requires names != [] && names[0] !in names[1..]
    requires MergedPart(env, o, m, m1, dst, [names[0]]) && MergedPart(env, o, m1, m2, dst, names[1..])
    ensures MergedPart(env, o, m, m2, dst, names)
  {
    hide Locate, Followed;
    assert names == [names[0]] + names[1..];
    forall p
      ensures Get(m2, p) ==
        if dst < p && p[|dst|] in names && Image(o.at, dst, p) in o.tree
        then Some(Copied(env, o, m, Image(o.at, dst, p), p))
        else Get(m, p)
    {
      assert Get(m1, p) ==
        if dst < p && p[|dst|] in [names[0]] && Image(o.at, dst, p) in o.tree
        then Some(Copied(env, o, m, Image(o.at, dst, p), p))
        else Get(m, p);
    }
  }

  lemma MergedWhole(env: Env, o: Origin, m: Tree, m1: Tree, m2: Tree, dst: Path, names: seq<string>)
    requires WF(o.tree) && IsDir(o.tree, o.at)
    requires WF(m1) && MadeDirs(m, m1, dst, env.masked(o.tree[o.at].perm)) && dst in m1
    requires MergedPart(env, o, m1, m2, dst, names)
    requires forall n :: o.at + [n] in o.tree ==> n in names
    ensures Merged(env, o, m, m2, dst)
  {
    hide Locate, Followed;
    forall p
      ensures Get(m2, p) ==
        if dst <= p && Image(o.at, dst, p) in o.tree then Some(Copied(env, o, m, Image(o.at, dst, p), p))
        else if p in m then Some(m[p])
        else if p < dst then Some(Dir(env.masked(o.tree[o.at].perm)))
        else None
    {
      if p == dst {
        assert Image(o.at, dst, p) == o.at;
      } else if p < dst {
        Ancestors(m1, p, dst);
      } else if dst <= p && Image(o.at, dst, p) in o.tree {
        ImageOfChild(o.at, dst, p[|dst|], p);
        Ancestors(o.tree, o.at + [p[|dst|]], Image(o.at, dst, p));
      }
    }
  }

  // ------------------------------------------------------------------ the run

  lemma {:induction false} EntryMerged(env: Env, o: Origin, top: Path, dst: Path, name: string, w: World)
    requires Target(env, o, top, dst, w.nodes) && LinksLead(env, o, top)
    requires Real(name) && o.at + [name] in o.tree && dst in w.nodes
    requires PlainEntry(env, o, dst, name, w).ok
    ensures IsDir(w.nodes, dst)
    ensures MergedPart(env, o, w.nodes, PlainEntry(env, o, dst, name, w).w.nodes, dst, [name])
    decreases Below(o.tree, o.at), 0
  {
    hide Locate, Walk, Merged, MergedPart, LinksLead, Keeps, NoLinks;
    var d := dst + [name];
    TargetChild(env, o, top, dst, w.nodes, name);
    PlainEntryKeeps(env, o, dst, name, w);
    if IsDir(o.tree, o.at + [name]) {
      BelowShrinks(o.tree, o.at, name);
      LinksBelow(env, o, top, name);
      CopyingChild(env, o, top, w.nodes, name);
      DirMerged(env, Child(o, name), top, d, w);
      MergedChild(env, o, w.nodes, PlainDir(env, Child(o, name), d, w).w.nodes, dst, name);
    } else {
      LeadsByName(env, o, top, name);
      PlainFileEffect(env, o, top, name, d, w);
      MergedFile(env, o, w.nodes, dst, name);
    }
  }

  lemma {:induction false} EntriesMerged(env: Env, o: Origin, top: Path, dst: Path, names: seq<string>, w: World)
    requires Target(env, o, top, dst, w.nodes) && LinksLead(env, o, top)
    requires RealNames(names) && NoRepeats(names) && (forall n :: n in names ==> o.at + [n] in o.tree) && dst in w.nodes
    requires PlainEntries(env, o, dst, names, w).ok
    ensures MergedPart(env, o, w.nodes, PlainEntries(env, o, dst, names, w).w.nodes, dst, names)
    decreases Below(o.tree, o.at), 1, |names|
  {
    hide Locate, Walk, Keeps, NoLinks, LinksLead;
    if names != [] {
      hide MergedPart;
      assert names[0] in names;
      var r := PlainEntry(env, o, dst, names[0], w);
      EntryMerged(env, o, top, dst, names[0], w);
      PlainEntryKeeps(env, o, dst, names[0], w);
      KeepsTarget(env, o, top, dst, w.nodes, r.w.nodes);
      EntriesMerged(env, o, top, dst, names[1..], r.w);
      MergedJoin(env, o, w.nodes, r.w.nodes, PlainEntries(env, o, dst, names[1..], r.w).w.nodes, dst, names);
    }
  }

  /** A successful CopyDir, under any faults it survived: the destination is the old one merged
      with the source, whose symlinks are replaced by the files they lead to. */
  lemma {:induction false} DirMerged(env: Env, o: Origin, top: Path, dst: Path, w: World)
    requires Target(env, o, top, dst, w.nodes) && LinksLead(env, o, top)
    requires PlainDir(env, o, dst, w).ok
    ensures Merged(env, o, w.nodes, PlainDir(env, o, dst, w).w.nodes, dst)
    decreases Below(o.tree, o.at), 2
  {
    hide Locate, Walk, NoLinks, Merged, MergedPart, Keeps, LinksLead;
    var perm := o.tree[o.at].perm;
    DirLookup(env, o, top, w.nodes);
    MakeMissingEffect(env, dst, perm, Tick(w));
    var made := MakeMissing(env, dst, perm, Tick(w));
    KeepsTarget(env, o, top, dst, w.nodes, made.w.nodes);
    ListingReal(env, o.tree, o.at);
    var names := env.listing(o.at, Names(o.tree, o.at));
    var read := Touchless(env, made.w);
    EntriesMerged(env, o, top, dst, names, read.w);
    MergedWhole(env, o, w.nodes, made.w.nodes, PlainEntries(env, o, dst, names, read.w).w.nodes, dst, names);
  }

  // ------------------------------------------------------------------ acceptance into a fresh destination

  lemma {:induction false} EntriesAccepted(env: Env, o: Origin, top: Path, dst: Path, names: seq<string>, w: World)
    requires NoFault(env) && Target(env, o, top, dst, w.nodes) && LinksLead(env, o, top)
    requires RealNames(names) && NoRepeats(names) && (forall n :: n in names ==> o.at + [n] in o.tree)
    requires IsDir(w.nodes, dst) && (forall n :: n in names ==> dst + [n] !in w.nodes)
    ensures PlainEntries(env, o, dst, names, w).ok
    decreases Below(o.tree, o.at), 1, |names|
  {
    hide Locate, Walk, NoLinks, Keeps, LinksLead;
    if names != [] {
      var name := names[0];
      assert name in names;
      TargetChild(env, o, top, dst, w.nodes, name);
      var r := PlainEntry(env, o, dst, name, w);
      assert Parent(dst + [name]) == dst;
      if IsDir(o.tree, o.at + [name]) {
        BelowShrinks(o.tree, o.at, name);
        LinksBelow(env, o, top, name);
        CopyingChild(env, o, top, w.nodes, name);
        ChildOnWay(w.nodes, dst, name);
        DirAccepted(env, Child(o, name), top, dst + [name], w);
      } else {
        LeadsByName(env, o, top, name);
        PlainFileEffect(env, o, top, name, dst + [name], w);
      }
      EntryMerged(env, o, top, dst, name, w);
      PlainEntryKeeps(env, o, dst, name, w);
      KeepsTarget(env, o, top, dst, w.nodes, r.w.nodes);
      forall n | n in names[1..]
        ensures dst + [n] !in r.w.nodes
      {
        assert Get(r.w.nodes, dst + [n]) == Get(w.nodes, dst + [n]);
      }
      EntriesAccepted(env, o, top, dst, names[1..], r.w);
    }
  }

  lemma ChildOnWay(m: Tree, dst: Path, name: string)
    requires WF(m) && IsDir(m, dst) && dst + [name] !in m
    ensures DirsOnWay(m, dst + [name])
  {
    forall q | q in m && q <= dst + [name]
      ensures m[q].Dir?
    {
      ParentPrefix(q, dst + [name]);
      assert Parent(dst + [name]) == dst;
      Ancestors(m, q, dst);
    }
  }

  /** A fault-free CopyDir into an absent destination succeeds exactly when nothing but
      directories is on the way to it. */
  lemma {:induction false} DirAccepted(env: Env, o: Origin, top: Path, dst: Path, w: World)
    requires NoFault(env) && dst !in w.nodes
    requires Target(env, o, top, dst, w.nodes) && LinksLead(env, o, top)
    ensures PlainDir(env, o, dst, w).ok <==> DirsOnWay(w.nodes, dst)
    decreases Below(o.tree, o.at), 2
  {
    hide Locate, Walk, NoLinks, Keeps, LinksLead;
    var perm := o.tree[o.at].perm;
    DirLookup(env, o, top, w.nodes);
    MakeMissingEffect(env, dst, perm, Tick(w));
    var made := MakeMissing(env, dst, perm, Tick(w));
    if made.ok {
      KeepsTarget(env, o, top, dst, w.nodes, made.w.nodes);
      ListingReal(env, o.tree, o.at);
      var names := env.listing(o.at, Names(o.tree, o.at));
      var read := Touchless(env, made.w);
      forall n
        ensures dst + [n] !in made.w.nodes
      {
        assert dst < dst + [n];
        if dst + [n] in w.nodes {
          Ancestors(w.nodes, dst, dst + [n]);
        }
      }
      EntriesAccepted(env, o, top, dst, names, read.w);
    }
  }

  // ------------------------------------------------------------------ acceptance, the other way round

  /** The name that resolution misses, if it stops for want of one. */
  function Gap(m: Tree, cur: Path, todo: seq<string>, links: nat): Option<Path>
    decreases links, |todo|
  {
    if todo == [] then None
    else
      var c, rest := todo[0], todo[1..];
      if c == "" || c == "." then Gap(m, cur, rest, links)
      else if c == ".." then Gap(m, if cur == [] then cur else Parent(cur), rest, links)
      else if cur + [c] !in m then Some(cur + [c])
      else match m[cur + [c]]
        case Dir(_) => Gap(m, cur + [c], rest, links)
        case File(_, _) => None
        case Link(target) =>
          if links == 0 then None
          else Gap(m, if Rooted(target) then [] else cur, Split(target) + rest, links - 1)
  }

  /** No symlink of the source has to do with the destination: it leads to something outside, or
      nowhere, for want of a name that is neither below the destination nor on the way to it. */
  ghost predicate LinksSettled(env: Env, o: Origin, top: Path) {
    forall k :: k in o.tree && o.at <= k && o.tree[k].Link? ==> LinkSettled(env, o, top, k)
  }

  ghost predicate LinkSettled(env: Env, o: Origin, top: Path, k: Path)
    requires o.at <= k
  {
    var r, gap := Locate(env, o.tree, PathTo(o, k), true), Gap(o.tree, [], PathTo(o, k), env.maxLinks);
    if r.Found? then r.path in o.tree && !(top <= r.path) else gap.Some? ==> Disjoint(gap.value, top)
  }

  /** What leads nowhere still does while only the destination changes. */
  lemma {:induction false} WalkStuck(m: Tree, m2: Tree, top: Path, cur: Path, todo: seq<string>, links: nat)
    requires NoLinks(m, top) && Keeps(m, m2, top) && !Walk(m, [], false, cur, todo, links, true).Found?
    requires var gap := Gap(m, cur, todo, links); gap.Some? ==> Disjoint(gap.value, top)
    ensures !Walk(m2, [], false, cur, todo, links, true).Found?
    decreases links, |todo|
  {
    var c, rest := todo[0], todo[1..];
    if c == "" || c == "." {
      WalkStuck(m, m2, top, cur, rest, links);
    } else if c == ".." {
      WalkStuck(m, m2, top, if cur == [] then cur else Parent(cur), rest, links);
    } else {
      var next := cur + [c];
      assert top <= next || Get(m2, next) == Get(m, next) || (next < top && next !in m && IsDir(m2, next));
      if next in m {
        match m[next]
        case Dir(_) => WalkStuck(m, m2, top, next, rest, links);
        case File(_, _) =>
        case Link(target) =>
          if links > 0 {
            WalkStuck(m, m2, top, if Rooted(target) then [] else cur, Split(target) + rest, links - 1);
          }
      }
    }
  }

  ghost predicate EntryLeads(env: Env, o: Origin, top: Path, name: string) {
    forall k :: k in o.tree && o.at + [name] <= k && o.tree[k].Link? ==> o.at <= k && LinkLeads(env, o, top, k)
  }

  /** A file or symlink that was copied led to a file. */
  lemma FileLed(env: Env, o: Origin, top: Path, name: string, dst: Path, w: World)
    requires Target(env, o, top, dst, w.nodes) && LinksSettled(env, o, top) && dst != []
    requires o.at + [name] in o.tree && !o.tree[o.at + [name]].Dir?
    requires PlainFile(env, o.src + [name], dst, w).ok
    ensures EntryLeads(env, o, top, name)
  {
    hide Walk, Locate;
    var k, m := o.at + [name], w.nodes;
    assert o.at <= k && PathTo(o, k) == o.src + [name];
    OpenFileEffect(env, Tick(w), dst, 438);
    if o.tree[k].Link? {
      assert LinkSettled(env, o, top, k);
      SettledStays(env, o, top, m, k);
    }
    forall q | q in o.tree && k <= q
      ensures q == k
    {
      NoneBelow(o.tree, k, q);
    }
  }

  lemma SettledStays(env: Env, o: Origin, top: Path, m: Tree, k: Path)
    requires Copying(env, o, top, m) && o.at <= k && LinkSettled(env, o, top, k)
    ensures var r, r2 := Locate(env, o.tree, PathTo(o, k), true), Locate(env, m, PathTo(o, k), true);
      if r.Found? then r2 == r && Get(m, r.path) == Get(o.tree, r.path) else !r2.Found?
  {
    hide Walk, Gap;
    var r := Locate(env, o.tree, PathTo(o, k), true);
    if r.Found? {
      var q := r.path;
      WalkStable(o.tree, m, top, [], PathTo(o, k), env.maxLinks, true);
      assert top <= q || Get(m, q) == Get(o.tree, q) || (q < top && q !in o.tree && IsDir(m, q));
    } else {
      WalkStuck(o.tree, m, top, [], PathTo(o, k), env.maxLinks);
    }
  }

  lemma SettledBelow(env: Env, o: Origin, top: Path, name: string)
    requires LinksSettled(env, o, top)
    ensures LinksSettled(env, Child(o, name), top)
    ensures LinksLead(env, Child(o, name), top) ==> EntryLeads(env, o, top, name)
  {
    hide Locate;
    forall k | k in o.tree && o.at + [name] <= k && o.tree[k].Link?
      ensures LinkSettled(env, Child(o, name), top, k)
      ensures LinksLead(env, Child(o, name), top) ==> o.at <= k && LinkLeads(env, o, top, k)
    {
      ChildPath(o, name, k);
      assert LinkSettled(env, o, top, k);
      assert LinksLead(env, Child(o, name), top) ==> LinkLeads(env, Child(o, name), top, k);
    }
  }

  lemma {:induction false} EntryLed(env: Env, o: Origin, top: Path, dst: Path, name: string, w: World)
    requires Target(env, o, top, dst, w.nodes) && LinksSettled(env, o, top)
    requires Real(name) && o.at + [name] in o.tree
    requires PlainEntry(env, o, dst, name, w).ok
    ensures EntryLeads(env, o, top, name)
    decreases Below(o.tree, o.at), 0
  {
    hide Locate, Walk, LinksLead, LinksSettled, EntryLeads, Keeps, NoLinks;
    TargetChild(env, o, top, dst, w.nodes, name);
    if IsDir(o.tree, o.at + [name]) {
      BelowShrinks(o.tree, o.at, name);
      SettledBelow(env, o, top, name);
      CopyingChild(env, o, top, w.nodes, name);
      DirLed(env, Child(o, name), top, dst + [name], w);
    } else {
      FileLed(env, o, top, name, dst + [name], w);
    }
  }

  lemma {:induction false} EntriesLed(env: Env, o: Origin, top: Path, dst: Path, names: seq<string>, w: World)
    requires Target(env, o, top, dst, w.nodes) && LinksSettled(env, o, top)
    requires RealNames(names) && (forall n :: n in names ==> o.at + [n] in o.tree) && dst in w.nodes
    requires PlainEntries(env, o, dst, names, w).ok
    ensures forall n :: n in names ==> EntryLeads(env, o, top, n)
    decreases Below(o.tree, o.at), 1, |names|
  {
    hide Locate, Walk, LinksSettled, EntryLeads, Keeps, NoLinks;
    if names != [] {
      assert names[0] in names;
      var r := PlainEntry(env, o, dst, names[0], w);
      EntryLed(env, o, top, dst, names[0], w);
      PlainEntryKeeps(env, o, dst, names[0], w);
      KeepsTarget(env, o, top, dst, w.nodes, r.w.nodes);
      EntriesLed(env, o, top, dst, names[1..], r.w);
    }
  }

  /** What has been copied led to files. */
  lemma {:induction false} DirLed(env: Env, o: Origin, top: Path, dst: Path, w: World)
    requires Target(env, o, top, dst, w.nodes) && LinksSettled(env, o, top)
    requires PlainDir(env, o, dst, w).ok
    ensures LinksLead(env, o, top)
    decreases Below(o.tree, o.at), 2
  {
    hide Locate, Walk, LinksSettled, EntryLeads, LinkLeads, Keeps, NoLinks;
    var perm := o.tree[o.at].perm;
    DirLookup(env, o, top, w.nodes);
    MakeMissingEffect(env, dst, perm, Tick(w));
    var made := MakeMissing(env, dst, perm, Tick(w));
    KeepsTarget(env, o, top, dst, w.nodes, made.w.nodes);
    ListingReal(env, o.tree, o.at);
    var names := env.listing(o.at, Names(o.tree, o.at));
    EntriesLed(env, o, top, dst, names, Touchless(env, made.w).w);
    AllLead(env, o, top, names);
  }

  lemma AllLead(env: Env, o: Origin, top: Path, names: seq<string>)
    requires WF(o.tree) && IsDir(o.tree, o.at)
    requires forall n :: o.at + [n] in o.tree ==> n in names
    requires forall n :: n in names ==> EntryLeads(env, o, top, n)
    ensures LinksLead(env, o, top)
  {
    hide Locate, LinkLeads;
    forall k | k in o.tree && o.at <= k && k != o.at
      ensures o.tree[k].Link? ==> LinkLeads(env, o, top, k)
    {
      var n := k[|o.at|];
      assert o.at + [n] == k[..|o.at| + 1];
      Ancestors(o.tree, o.at + [n], k);
      assert EntryLeads(env, o, top, n);
    }
  }
}
