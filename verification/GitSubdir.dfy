/**
  The part of Gather in gather/git/git.go that copies a subdirectory out of a clone: the lexical
  check on the subdirectory, and then the confined copy.
 */
module GitSubdir {
  import opened Paths
  import opened Os
  import opened Hosts
  import opened Frames
  import opened ConfinedCopy
  import opened ConfinedHost
  import opened ConfinedAccept
  import opened ConfinedCall

  lemma JoinedComps(root: string, subdir: string)
    requires Plain(root) && root != ""
    ensures var s := root + "/" + subdir;
      && Rooted(s) == Rooted(root)
      && Comps(s) == Fold(Rooted(root), Comps(root), CleanRel(Split(subdir)))
      && AllReal(Comps(root))
  {
    hide Split, Kept, AllReal;
    var rooted := Rooted(root);
    SplitAppend(root, subdir);
    FoldAppend(rooted, [], Split(root), Split(subdir));
    FoldKept(rooted, [], Split(root));
    FoldTwice(rooted, Comps(root), Split(subdir));
    assert [] + Kept(Split(root)) == Kept(Split(root));
  }

  /** The cleaned path goes up from where it begins. */
  predicate GoesUp(c: Path) {
    c != [] && c[0] == ".."
  }

  lemma StaysDown(rooted: bool, kept: Path, c: Path)
    requires AllReal(kept) && Normal(false, c) && !GoesUp(c)
    ensures AllReal(c) && Fold(rooted, kept, c) == kept + c
  {
    forall i | 0 <= i < |c|
      ensures c[i] != ".."
    {
      UpFirst(c, i);
    }
    FoldFixed(rooted, kept, c);
  }

  lemma {:induction false} UpFirst(c: Path, i: nat)
    requires Normal(false, c) && i < |c|
    ensures c[i] == ".." ==> c[0] == ".."
  {
    if i > 0 && c[i] == ".." {
      UpFirst(c, i - 1);
    }
  }

  /** The check and the copy mean the same place: the one that the cleaned subdirectory leads to
      from the root; the check passes exactly when it is not the root itself (a root that cleans
      to "." aside).  A subdirectory that cleans to one going up may pass, if it comes back
      through the root's own name, but then resolution in the root refuses it. */
  lemma CheckMeansCopy(cwd: Path, root: string, subdir: string, m: Tree, base: Path, links: nat, follow: bool)
    requires AllReal(cwd) && Plain(root) && root != ""
    ensures var c := CleanRel(Split(subdir));
      if GoesUp(c) then Walk(m, base, true, base, c, links, follow) == Refused
      else
        && AllReal(c)
        && OsPath(cwd, Join(root, subdir)) == OsPath(cwd, root) + c
        && (IsPathContained(Join(root, subdir), root) <==> c != [] && Clean(root) != ".")
  {
    var c := CleanRel(Split(subdir));
    if !GoesUp(c) {
      FoldNormal(false, [], Split(subdir));
      JoinedComps(root, subdir);
      StaysDown(Rooted(root), Comps(root), c);
      PlaceOfJoin(cwd, root, subdir, c);
    }
  }

  lemma PlaceOfJoin(cwd: Path, root: string, subdir: string, c: Path)
    requires AllReal(cwd) && Plain(root) && root != "" && AllReal(c) && AllReal(Comps(root))
    requires Rooted(root + "/" + subdir) == Rooted(root) && Comps(root + "/" + subdir) == Comps(root) + c
    ensures OsPath(cwd, Join(root, subdir)) == OsPath(cwd, root) + c
    ensures IsPathContained(Join(root, subdir), root) <==> c != [] && Clean(root) != "."
  {
    hide Comps, IsPathContained, Render, Text, OsPath, Rooted;
    var s, all := root + "/" + subdir, Comps(root) + c;
    CompsNormal(s);
    RenderRoundTrip(Rooted(s), all);
    ContainedIff(Join(root, subdir), root);
    PlainOsPath(cwd, root);
    RenderLocation(cwd, Rooted(s), all);
    assert Comps(root) < all <==> c != [];
  }

  /** The clone is in tmpDir.  A subdirectory that fails the check is refused before any call is
      made; one that does not exist costs one call; otherwise dst is what the confined copy of
      that directory makes it: on success, overlaid with the dereferenced subdirectory of the clone
      and nothing else. */
  method CopySubdir(h: Host, tmpDir: string, subdir: string, dst: Path) returns (ok: bool)
    requires CallReady(h.env, h.w.nodes, OsPath(h.env.cwd, tmpDir), Split(subdir), dst)
    modifies h
    ensures var env, w, path := h.env, old(h.w), Join(tmpDir, subdir);
      Outcome(h.w, ok) ==
        if !IsPathContained(path, tmpDir) then Outcome(w, false)
        else if !Stat(env, w, OsPath(env.cwd, path)).Exists? then Outcome(Tick(w), false)
        else Run(env, Tick(w), OsPath(env.cwd, tmpDir), Split(subdir), dst)
    ensures Keeps(old(h.w.nodes), h.w.nodes, dst)
    ensures var env, m, root, rel := h.env, old(h.w.nodes), OsPath(h.env.cwd, tmpDir), Split(subdir);
      ok ==>
        && Selects(env, m, root, rel)
        && var at := Chosen(env, m, root, rel);
          Laid(env, ReadFrom(env, m, root, rel), m, h.w.nodes, at, dst, m[at].perm)
    ensures var env, m, root, rel := h.env, old(h.w.nodes), OsPath(h.env.cwd, tmpDir), Split(subdir);
      var path := Join(tmpDir, subdir);
      NoFault(env) ==>
        (ok <==>
           && IsPathContained(path, tmpDir) && Stat(env, old(h.w), OsPath(env.cwd, path)).Exists?
           && Selects(env, m, root, rel) && DirsOnWay(m, dst)
           && TreeFits(ReadFrom(env, m, root, rel), m, Chosen(env, m, root, rel), dst))
  {
    hide Locate, Join, IsPathContained, Run, Laid, TreeFits, CallReady, Selects;
    CallKeeps(h.env, h.w.nodes, OsPath(h.env.cwd, tmpDir), Split(subdir), dst);
    var path := Join(tmpDir, subdir);
    if !IsPathContained(path, tmpDir) {
      return false;
    }
    var found := h.Stat(OsPath(h.env.cwd, path));
    if !found.Exists? {
      return false;
    }
    ok := CopyDirConfined(h, OsPath(h.env.cwd, tmpDir), Split(subdir), dst);
  }

  lemma CallKeeps(env: Env, m: Tree, root: Path, rel: seq<string>, dst: Path)
    requires CallReady(env, m, root, rel, dst)
    ensures Keeps(m, m, dst)
  {
    hide Locate;
    KeepsNothing(m, dst);
  }
}
