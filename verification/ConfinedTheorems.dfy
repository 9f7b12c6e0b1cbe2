/**
  The promises of CopyDirConfined: what it copies, when it succeeds, and that nothing outside the
  root and the destination can influence it.
 */
module ConfinedTheorems {
  import opened Paths
  import opened Os
  import opened Frames
  import opened Confined
  import opened ConfinedCopy
  import opened ConfinedAccept
  import opened ConfinedLocal
  import opened ConfinedHost

  /** What callers provide: a real tree, a destination that contains no symlink and is disjoint
      from the root. */
  ghost predicate Callable(env: Env, w: World, base: Path, rel: seq<string>, dst: Path) {
    && FairListing(env) && WF(w.nodes) && AllReal(dst)
    && NoLinks(w.nodes, dst) && Disjoint(base, dst)
  }

  /** Where relPath leads without following a symlink at its end. */
  ghost function Selected(env: Env, w: World, base: Path, rel: seq<string>): Walked {
    Walk(w.nodes, base, true, base, rel, env.maxLinks, false)
  }

  ghost predicate SelectsDir(env: Env, w: World, base: Path, rel: seq<string>) {
    Selected(env, w, base, rel).Found? && IsDir(w.nodes, Selected(env, w, base, rel).path)
  }

  ghost function SourceOf(env: Env, w: World, base: Path, rel: seq<string>): Source
    requires SelectsDir(env, w, base, rel)
  {
    Source(w.nodes, base, LeftFor(env, w.nodes, base, rel))
  }

  /** Whatever fails and whenever: only dst and what is below it changes, apart from missing
      directories made on the way to it; nothing is deleted, and the root keeps every node. */
  lemma CopyStaysInDst(env: Env, w: World, base: Path, rel: seq<string>, dst: Path)
    requires Callable(env, w, base, rel, dst)
    ensures var r := RunOpened(env, w, base, rel, dst);
      Keeps(w.nodes, r.w.nodes, dst) && SameBelow(w.nodes, r.w.nodes, base)
  {
    var r := RunOpened(env, w, base, rel, dst);
    assert Keeps(w.nodes, w.nodes, dst);
    if !env.fault(w.tick) && SelectsDir(env, w, base, rel) {
      var at := Selected(env, w, base, rel).path;
      DirKeeps(env, SourceOf(env, w, base, rel), at, dst, w.nodes[at].perm, Tick(w));
    }
    KeepsIntact(Source(w.nodes, base, 0), w.nodes, r.w.nodes, dst);
  }

  /** A successful copy, under any faults, listing order and umask: dst is the old dst overlaid
      with the dereferenced source; into an absent dst, it is exactly the dereferenced source. */
  lemma CopyIsOverlay(env: Env, w: World, base: Path, rel: seq<string>, dst: Path)
    requires Callable(env, w, base, rel, dst)
    requires RunOpened(env, w, base, rel, dst).ok
    ensures SelectsDir(env, w, base, rel)
    ensures var s, at := SourceOf(env, w, base, rel), Selected(env, w, base, rel).path;
      var m := RunOpened(env, w, base, rel, dst).w.nodes;
      && Laid(env, s, w.nodes, m, at, dst, w.nodes[at].perm)
      && (dst !in w.nodes ==> forall p {:trigger Get(m, p)} :: dst <= p ==>
            Get(m, p) == if Image(at, dst, p) in s.tree then Some(Deref(s, Image(at, dst, p))) else None)
  {
    var s, at := SourceOf(env, w, base, rel), Selected(env, w, base, rel).path;
    DirLaid(env, s, at, dst, w.nodes[at].perm, Tick(w));
    if dst !in w.nodes {
      forall p | dst <= p
        ensures p !in w.nodes
      {
        if p in w.nodes {
          Ancestors(w.nodes, dst, p);
        }
      }
    }
  }

  /** A fault-free copy succeeds exactly when relPath is a real directory, every symlink below it
      resolves within the root to a file, and no node of the destination, or on the way to it,
      is of a conflicting kind. */
  lemma CopyAccepts(env: Env, w: World, base: Path, rel: seq<string>, dst: Path)
    requires Callable(env, w, base, rel, dst) && NoFault(env)
    ensures RunOpened(env, w, base, rel, dst).ok <==>
      && SelectsDir(env, w, base, rel)
      && DirsOnWay(w.nodes, dst)
      && TreeFits(SourceOf(env, w, base, rel), w.nodes, Selected(env, w, base, rel).path, dst)
  {
    if SelectsDir(env, w, base, rel) {
      var s, at := SourceOf(env, w, base, rel), Selected(env, w, base, rel).path;
      DirFits(env, s, at, dst, w.nodes[at].perm, Tick(w));
    }
  }

  /** Noninterference.  Two hosts have the same trees below the root and at the destination, and
      anything whatever elsewhere.  Then at every pattern of faults the copy ends the same way,
      after the same number of calls, with the same nodes at the destination: every byte it wrote
      came from a file inside the root. */
  lemma CopyIsConfined(env: Env, w1: World, w2: World, base: Path, rel: seq<string>, dst: Path)
    requires Callable(env, w1, base, rel, dst) && Callable(env, w2, base, rel, dst)
    requires w1.tick == w2.tick
    requires SameBelow(w1.nodes, w2.nodes, base) && SameView(w1.nodes, w2.nodes, dst)
    ensures var r1, r2 := RunOpened(env, w1, base, rel, dst), RunOpened(env, w2, base, rel, dst);
      && r1.ok == r2.ok && r1.w.tick == r2.w.tick
      && SameView(r1.w.nodes, r2.w.nodes, dst) && SameBelow(r1.w.nodes, r2.w.nodes, base)
  {
    WalkConfined(w1.nodes, w2.nodes, base, base, rel, env.maxLinks, false);
    WalkConfined(w1.nodes, w2.nodes, base, base, CleanRel(rel), env.maxLinks, true);
    WalkStays(w1.nodes, base, base, rel, env.maxLinks, false);
    var at := Selected(env, w1, base, rel);
    if at.Found? {
      assert Get(w1.nodes, at.path) == Get(w2.nodes, at.path);
      if !env.fault(w1.tick) && SelectsDir(env, w1, base, rel) {
        DirSame(env, SourceOf(env, w1, base, rel), SourceOf(env, w2, base, rel), at.path, dst,
          w1.nodes[at.path].perm, Tick(w1), Tick(w2));
      }
    }
  }
}
