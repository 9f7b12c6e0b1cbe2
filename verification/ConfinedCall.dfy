/**
  The call of CopyDirConfined, from the opening of the root on: what it copies, and when it
  succeeds, in terms of its three arguments.
 */
module ConfinedCall {
  import opened Paths
  import opened Os
  import opened Hosts
  import opened Frames
  import opened Confined
  import opened ConfinedCopy
  import opened ConfinedAccept
  import opened ConfinedLocal
  import opened ConfinedHost
  import opened ConfinedTheorems

  /** The copy that CopyDirConfined(root, rel, dst) makes, reading the tree as it was at the
      start. */
  ghost function Run(env: Env, w: World, root: Path, rel: seq<string>, dst: Path): Outcome {
    var open := Touchless(env, w);
    var base := Locate(env, w.nodes, root, true);
    if !open.ok || !base.Found? || !IsDir(w.nodes, base.path) then Outcome(open.w, false)
    else RunOpened(env, open.w, base.path, rel, dst)
  }

  /** In the tree m, root leads to a directory, and rel from there, inside it, to a directory that is
      not reached by a symlink at the end. */
  ghost predicate Selects(env: Env, m: Tree, root: Path, rel: seq<string>) {
    var base := Locate(env, m, root, true);
    && base.Found? && IsDir(m, base.path)
    && var at := Walk(m, base.path, true, base.path, rel, env.maxLinks, false);
    && at.Found? && IsDir(m, at.path)
  }

  ghost function Base(env: Env, m: Tree, root: Path, rel: seq<string>): Path
    requires Selects(env, m, root, rel)
  {
    Locate(env, m, root, true).path
  }

  /** That directory. */
  ghost function Chosen(env: Env, m: Tree, root: Path, rel: seq<string>): Path
    requires Selects(env, m, root, rel)
  {
    var base := Base(env, m, root, rel);
    Walk(m, base, true, base, rel, env.maxLinks, false).path
  }

  ghost function ReadFrom(env: Env, m: Tree, root: Path, rel: seq<string>): Source
    requires Selects(env, m, root, rel)
  {
    var base := Base(env, m, root, rel);
    Source(m, base, LeftFor(env, m, base, rel))
  }

  /** What callers provide, as CopyDirConfined has it. */
  ghost predicate CallReady(env: Env, m: Tree, root: Path, rel: seq<string>, dst: Path) {
    && FairListing(env) && WF(m) && NoLinks(m, dst) && AllReal(dst)
    && var base := Locate(env, m, root, true);
      base.Found? ==> Disjoint(base.path, dst) && CleansAlike(env, m, base.path, rel)
  }

  /** Whatever fails, only dst changes, and directories on the way to it are made.  After a success
      dst is the old one overlaid with the dereferenced directory that rel selects in root.  Without
      a fault that is when rel selects one there, every symlink below it resolves within root to a
      file, and nothing at dst or on the way to it is of a conflicting kind. */
  lemma RunMeaning(env: Env, w: World, root: Path, rel: seq<string>, dst: Path)
    requires CallReady(env, w.nodes, root, rel, dst)
    ensures var r, m := Run(env, w, root, rel, dst), w.nodes;
      && Keeps(m, r.w.nodes, dst)
      && (r.ok ==>
            && Selects(env, m, root, rel)
            && var at := Chosen(env, m, root, rel);
              Laid(env, ReadFrom(env, m, root, rel), m, r.w.nodes, at, dst, m[at].perm))
      && (NoFault(env) ==>
            (r.ok <==>
               && Selects(env, m, root, rel) && DirsOnWay(m, dst)
               && TreeFits(ReadFrom(env, m, root, rel), m, Chosen(env, m, root, rel), dst)))
  {
    hide Walk, Locate, RunOpened, Laid, TreeFits;
    var base := Locate(env, w.nodes, root, true);
    KeepsNothing(w.nodes, dst);
    if !env.fault(w.tick) && base.Found? && IsDir(w.nodes, base.path) {
      CopyStaysInDst(env, Tick(w), base.path, rel, dst);
      if NoFault(env) {
        CopyAccepts(env, Tick(w), base.path, rel, dst);
      }
      if Run(env, w, root, rel, dst).ok {
        CopyIsOverlay(env, Tick(w), base.path, rel, dst);
      }
    }
  }

  lemma KeepsNothing(m: Tree, dst: Path)
    requires WF(m) && NoLinks(m, dst)
    ensures Keeps(m, m, dst)
  {
  }

  method CopyDirConfined(h: Host, root: Path, relPath: seq<string>, dst: Path) returns (ok: bool)
    requires CallReady(h.env, h.w.nodes, root, relPath, dst)
    modifies h
    ensures Outcome(h.w, ok) == Run(h.env, old(h.w), root, relPath, dst)
    ensures Keeps(old(h.w.nodes), h.w.nodes, dst)
    ensures var m := old(h.w.nodes);
      ok ==>
        && Selects(h.env, m, root, relPath)
        && var at := Chosen(h.env, m, root, relPath);
          Laid(h.env, ReadFrom(h.env, m, root, relPath), m, h.w.nodes, at, dst, m[at].perm)
    ensures var m := old(h.w.nodes);
      NoFault(h.env) ==>
        (ok <==>
           && Selects(h.env, m, root, relPath) && DirsOnWay(m, dst)
           && TreeFits(ReadFrom(h.env, m, root, relPath), m, Chosen(h.env, m, root, relPath), dst))
  {
    RunMeaning(h.env, h.w, root, relPath, dst);
    hide Laid, TreeFits, Keeps;
    var r := Locate(h.env, h.w.nodes, root, true);
    ok := h.Call();
    if !ok || !r.Found? || !IsDir(h.w.nodes, r.path) {
      return false;
    }
    var base := r.path;
    ghost var at := Walk(h.w.nodes, base, true, base, relPath, h.env.maxLinks, false);
    WalkStays(h.w.nodes, base, base, relPath, h.env.maxLinks, false);
    var info := h.RootLookup(base, relPath, false);
    if info.None? {
      return false;
    }
    match h.w.nodes[info.value]
    case Link(_) => return false;
    case File(_, _) => return false;
    case Dir(perm) =>
      WalkSettled(h.w.nodes, base, base, relPath, h.env.maxLinks);
      ok := CopyDirConfinedIn(h, base, relPath, dst, perm,
        Source(h.w.nodes, base, LeftFor(h.env, h.w.nodes, base, relPath)), at.path);
  }
}
