/**
  CopyDir and CopyFile as the program runs them, and the directory branch of Gather in
  gather/file/file.go, which copies and then measures.
 */
module PlainHost {
  import opened Paths
  import opened Os
  import opened Hosts
  import opened Frames
  import opened Confined
  import opened ConfinedHost
  import opened PlainCopy
  import opened PlainMerge
  import opened PlainTheorems
  import opened ExtractMeaning
  import opened UnpackResult
  import opened Measure

  method CopyFile(h: Host, src: seq<string>, dst: Path) returns (ok: bool)
    requires WF(h.w.nodes) && NoLinks(h.w.nodes, dst) && AllReal(dst) && dst != []
    modifies h
    ensures Outcome(h.w, ok) == PlainFile(h.env, src, dst, old(h.w))
  {
    hide Locate;
    ghost var m := h.w.nodes;
    var srcFile := h.Open(src);
    if srcFile.None? {
      return false;
    }
    OpenFileEffect(h.env, h.w, dst, 438);
    var dstFile := h.OpenFile(dst, 438);
    if dstFile.None? {
      return false;
    }
    if !(srcFile.value in h.w.nodes && h.w.nodes[srcFile.value].File?) {
      var _ := h.Call();
      return false;
    }
    ok := h.Write(dstFile.value, h.w.nodes[srcFile.value].data);
    if !ok {
      return;
    }
    var info := h.Stat(src);
    if !info.Exists? {
      return false;
    }
    ok := h.Chmod(dst, Mode(info.node));
  }

  /** The copy from o can begin or go on: its destination has no symlink and is beside the
      directory that the source path leads to, if it leads to one. */
  ghost predicate MayCopy(env: Env, o: Origin, top: Path, dst: Path, m: Tree) {
    || Target(env, o, top, dst, m)
    || (&& FairListing(env) && WF(m) && o.tree == m && NoLinks(m, dst) && AllReal(dst)
        && !LeadsToDir(env, m, o.src))
  }

  ghost predicate LeadsToDir(env: Env, m: Tree, src: seq<string>) {
    var r := Locate(env, m, src, true);
    r.Found? && IsDir(m, r.path)
  }

  lemma MayIsOpen(env: Env, o: Origin, top: Path, dst: Path, w: World)
    requires MayCopy(env, o, top, dst, w.nodes)
    ensures Open(env, o.tree, dst, w)
    ensures Target(env, o, top, dst, w.nodes) || !(exists perm :: Stat(env, w, o.src) == Exists(Dir(perm)))
  {
    hide Walk;
  }

  method CopyDirFrom(h: Host, src: seq<string>, dst: Path, ghost o: Origin, ghost top: Path) returns (ok: bool)
    requires src == o.src && MayCopy(h.env, o, top, dst, h.w.nodes)
    modifies h
    ensures Outcome(h.w, ok) == PlainDir(h.env, o, dst, old(h.w))
    ensures Keeps(old(h.w).nodes, h.w.nodes, dst)
    decreases Below(o.tree, o.at)
  {
    hide Walk, Locate, Keeps, NoLinks, MayCopy;
    ghost var w0 := h.w;
    MayIsOpen(h.env, o, top, dst, w0);
    PlainDirKeeps(h.env, o, dst, w0);
    var srcInfo := h.Stat(src);
    if !srcInfo.Exists? || !srcInfo.node.Dir? {
      return false;
    }
    assert srcInfo == Exists(Dir(srcInfo.node.perm));
    ghost var perm := srcInfo.node.perm;
    DirLookup(h.env, o, top, w0.nodes);
    MakeMissingEffect(h.env, dst, perm, h.w);
    var dstInfo := h.Stat(dst);
    if dstInfo.StatError? {
      return false;
    }
    if dstInfo.NotExist? {
      ok := h.MkdirAll(dst, srcInfo.node.perm);
      if !ok {
        return;
      }
    }
    ghost var made := MakeMissing(h.env, dst, perm, Tick(w0));
    assert made == Outcome(h.w, true);
    KeepsTarget(h.env, o, top, dst, w0.nodes, h.w.nodes);
    ListedKept(h.env, o, top, dst, h.w.nodes);
    var names;
    ok, names := h.ListDir(src);
    if !ok {
      return;
    }
    ListingReal(h.env, o.tree, o.at);
    ghost var w1 := h.w;
    var i := 0;
    while i < |names|
      invariant 0 <= i <= |names|
      invariant Target(h.env, o, top, dst, h.w.nodes) && dst in h.w.nodes
      invariant PlainEntries(h.env, o, dst, names, w1) == PlainEntries(h.env, o, dst, names[i..], h.w)
    {
      ghost var w2 := h.w;
      var name := names[i];
      assert names[i..][0] == name && names[i..][1..] == names[i + 1..];
      assert name in names;
      TargetIsOpen(h.env, o, top, dst, h.w);
      PlainEntryKeeps(h.env, o, dst, name, h.w);
      ok := CopyEntry(h, src, dst, name, o, top);
      if !ok {
        return;
      }
      KeepsTarget(h.env, o, top, dst, w2.nodes, h.w.nodes);
      i := i + 1;
    }
    ok := true;
  }

  lemma TargetIsOpen(env: Env, o: Origin, top: Path, dst: Path, w: World)
    requires Target(env, o, top, dst, w.nodes)
    ensures Open(env, o.tree, dst, w)
  {
    hide Locate;
  }

  /** The source directory is found and lists as it did at the beginning. */
  lemma ListedKept(env: Env, o: Origin, top: Path, dst: Path, m: Tree)
    requires Target(env, o, top, dst, m)
    ensures LeadsTo(env, m, o.src, o.at) && IsDir(m, o.at) && Names(m, o.at) == Names(o.tree, o.at)
  {
    hide Locate, Keeps, NoLinks;
    DirLookup(env, o, top, m);
    forall q | |q| == |o.at| + 1 && o.at <= q
      ensures q in m <==> q in o.tree
    {
      SourceKept(env, o, top, m, q);
    }
  }

  method CopyEntry(h: Host, src: seq<string>, dst: Path, name: string, ghost o: Origin, ghost top: Path)
    returns (ok: bool)
    requires src == o.src && Target(h.env, o, top, dst, h.w.nodes)
    requires Real(name) && o.at + [name] in o.tree && dst in h.w.nodes
    modifies h
    ensures Outcome(h.w, ok) == PlainEntry(h.env, o, dst, name, old(h.w))
    decreases Below(o.tree, o.at), 0
  {
    hide Walk, Locate, Keeps;
    var srcPath, dstPath := src + [name], dst + [name];
    TargetChild(h.env, o, top, dst, h.w.nodes, name);
    SourceKept(h.env, o, top, h.w.nodes, o.at + [name]);
    DirLookup(h.env, o, top, h.w.nodes);
    var at := Locate(h.env, h.w.nodes, src, true).path;  // the directory that was listed
    if IsDir(h.w.nodes, at + [name]) {
      BelowShrinks(o.tree, o.at, name);
      CopyingChild(h.env, o, top, h.w.nodes, name);
      ok := CopyDirFrom(h, srcPath, dstPath, Child(o, name), top);
    } else {
      ok := CopyFile(h, srcPath, dstPath);
    }
  }

  /** A copy of the directory that src leads to. */
  ghost function From(env: Env, m: Tree, src: seq<string>): Origin
    requires LeadsToDir(env, m, src)
  {
    Origin(m, src, Locate(env, m, src, true).path)
  }

  /** After a success src led to a directory, and dst is the old one merged with it, if its symlinks
      have nothing to do with dst; without a fault and into an absent dst that is when src leads to
      a directory, each of its symlinks to a file, and only directories are on the way to dst. */
  lemma StartMeaning(env: Env, w: World, src: seq<string>, dst: Path)
    requires FairListing(env) && WF(w.nodes) && NoLinks(w.nodes, dst) && AllReal(dst)
    requires LeadsToDir(env, w.nodes, src) ==> Disjoint(Locate(env, w.nodes, src, true).path, dst)
    ensures var r, m := PlainDir(env, Start(env, w.nodes, src), dst, w), w.nodes;
      && (r.ok ==> LeadsToDir(env, m, src))
      && (r.ok && LinksSettled(env, From(env, m, src), dst) ==>
            LinksLead(env, From(env, m, src), dst) && Merged(env, From(env, m, src), m, r.w.nodes, dst))
      && (NoFault(env) && dst !in m && (LeadsToDir(env, m, src) ==> LinksSettled(env, From(env, m, src), dst)) ==>
            (r.ok <==> LeadsToDir(env, m, src) && DirsOnWay(m, dst) && LinksLead(env, From(env, m, src), dst)))
  {
    hide Walk, LinksSettled, LinksLead, Merged;
    if LeadsToDir(env, w.nodes, src) {
      var o := From(env, w.nodes, src);
      if LinksSettled(env, o, dst) {
        if PlainDir(env, o, dst, w).ok {
          CopyDirMerges(env, o, dst, w);
        }
        if NoFault(env) && dst !in w.nodes {
          CopyDirAccepts(env, o, dst, w);
        }
      }
    }
  }

  lemma FromMeasured(env: Env, w: World, src: seq<string>, dst: Path)
    requires FairListing(env) && WF(w.nodes) && NoLinks(w.nodes, dst) && AllReal(dst)
    requires LeadsToDir(env, w.nodes, src) ==> Disjoint(Locate(env, w.nodes, src, true).path, dst)
    ensures var r, m := PlainDir(env, Start(env, w.nodes, src), dst, w), w.nodes;
      r.ok && LeadsToDir(env, m, src) && dst !in m && LinksSettled(env, From(env, m, src), dst) ==>
        Size(Sub(Shapes(r.w.nodes), dst)) == Size(FollowedShapes(env, From(env, m, src)))
  {
    hide Walk, LinksSettled, Sub, Size, FollowedShapes;
    if LeadsToDir(env, w.nodes, src) {
      var o := From(env, w.nodes, src);
      if dst !in w.nodes && LinksSettled(env, o, dst) && PlainDir(env, o, dst, w).ok {
        CopiedSize(env, o, dst, w);
      }
    }
  }

  /** CopyDir. */
  method CopyDir(h: Host, src: seq<string>, dst: Path) returns (ok: bool)
    requires FairListing(h.env) && WF(h.w.nodes) && NoLinks(h.w.nodes, dst) && AllReal(dst)
    requires LeadsToDir(h.env, h.w.nodes, src) ==> Disjoint(Locate(h.env, h.w.nodes, src, true).path, dst)
    modifies h
    ensures Outcome(h.w, ok) == PlainDir(h.env, Start(h.env, old(h.w.nodes), src), dst, old(h.w))
    ensures Keeps(old(h.w).nodes, h.w.nodes, dst)
    ensures ok ==> LeadsToDir(h.env, old(h.w.nodes), src)
    ensures var m := old(h.w.nodes);
      ok && LinksSettled(h.env, From(h.env, m, src), dst) ==>
        LinksLead(h.env, From(h.env, m, src), dst) && Merged(h.env, From(h.env, m, src), m, h.w.nodes, dst)
  {
    StartMeaning(h.env, h.w, src, dst);
    ghost var o := Start(h.env, h.w.nodes, src);
    StartMayCopy(h.env, h.w.nodes, src, dst);
    ok := CopyDirFrom(h, src, dst, o, dst);
  }

  /** Where a copy of src reads. */
  function Start(env: Env, m: Tree, src: seq<string>): Origin {
    var r := Locate(env, m, src, true);
    Origin(m, src, if r.Found? then r.path else [])
  }

  lemma StartMayCopy(env: Env, m: Tree, src: seq<string>, dst: Path)
    requires FairListing(env) && WF(m) && NoLinks(m, dst) && AllReal(dst)
    requires LeadsToDir(env, m, src) ==> Disjoint(Locate(env, m, src, true).path, dst)
    ensures MayCopy(env, Start(env, m, src), dst, dst, m)
  {
    hide Walk;
    KeepsSelf(m, dst);
  }

  /** The directory branch of Gather: the reported size is that of everything at and below dst. */
  method GatherDirectory(h: Host, src: seq<string>, dst: Path) returns (ok: bool, size: nat)
    requires FairListing(h.env) && WF(h.w.nodes) && NoLinks(h.w.nodes, dst) && AllReal(dst)
    requires LeadsToDir(h.env, h.w.nodes, src) ==> Disjoint(Locate(h.env, h.w.nodes, src, true).path, dst)
    modifies h
    ensures Keeps(old(h.w).nodes, h.w.nodes, dst)
    ensures var copied := PlainDir(h.env, Start(h.env, old(h.w.nodes), src), dst, old(h.w));
      && h.w.nodes == copied.w.nodes
      && (ok ==> copied.ok && dst in h.w.nodes && size == Size(Sub(Shapes(h.w.nodes), dst)))
      && (NoFault(h.env) && copied.ok && dst in h.w.nodes ==> ok)
    ensures ok ==> LeadsToDir(h.env, old(h.w.nodes), src)
    ensures var m := old(h.w.nodes);
      ok && LinksSettled(h.env, From(h.env, m, src), dst) ==>
        && Merged(h.env, From(h.env, m, src), m, h.w.nodes, dst)
        && (dst !in m ==> size == Size(FollowedShapes(h.env, From(h.env, m, src))))
  {
    hide Walk, Locate, Sub, Size, Start, FollowedShapes, LinksSettled;
    FromMeasured(h.env, h.w, src, dst);
    size := 0;
    ok := CopyDir(h, src, dst);
    if ok {
      ClearUp(h.w.nodes, dst);
      ok, size := GetDirectorySize(h, dst);
    }
  }

  lemma ClearUp(m: Tree, dst: Path)
    requires NoLinks(m, dst)
    ensures dst == [] || Clear(m, Parent(dst))
  {
    if dst != [] {
      assert Parent(dst) <= dst;
      assert forall q {:trigger q in m} :: q <= Parent(dst) ==> q <= dst;
    }
  }
}
