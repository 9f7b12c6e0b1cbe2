/**
  The promises of the archive expanders about everything they do not extract: containment, and
  what the rollback of a failed run removes.
 */
module ExtractTheorems {
  import opened Paths
  import opened Os
  import opened RawPaths
  import opened Frames
  import opened Archives
  import opened ExtractDown

  // ------------------------------------------------------------------ what os.RemoveAll(dst) removes

  function Base(env: Env, s: string): Path {
    if Rooted(s) then [] else env.cwd
  }

  /** No place that the text passes through lexically is a symlink, and where it begins is a
      directory. */
  ghost predicate Straight(env: Env, m: Tree, s: string) {
    IsDir(m, Base(env, s)) && StraightFrom(m, Base(env, s), Split(s))
  }

  lemma StraightKept(env: Env, m: Tree, m2: Tree, s: string)
    requires Straight(env, m, s) && Grows(m, m2)
    ensures Straight(env, m2, s)
  {
    var base, cs := Base(env, s), Split(s);
    forall i: nat | i <= |cs|
      ensures NoLinkAt(m2, Step(base, cs, i))
    {
      assert NoLinkAt(m, Step(base, cs, i));
    }
  }

  lemma {:induction false} UntrailedPrefix(kept: Path, cs: seq<string>)
    ensures Untrailed(cs) <= cs && Fold(true, kept, Untrailed(cs)) == Fold(true, kept, cs)
    decreases |cs|
  {
    if cs != [] && cs[|cs| - 1] == "" {
      var front := cs[..|cs| - 1];
      assert cs == front + [""];
      UntrailedPrefix(kept, front);
      FoldAppend(true, kept, front, [""]);
      FoldOne(true, Fold(true, kept, front), "");
    }
  }

  lemma StraightPrefix(m: Tree, cur: Path, cs: seq<string>, us: seq<string>)
    requires StraightFrom(m, cur, cs) && us <= cs
    ensures StraightFrom(m, cur, us)
  {
    forall i: nat | i <= |us|
      ensures Step(cur, us, i) == Step(cur, cs, i)
    {
      assert us[..i] == cs[..i];
    }
    forall i: nat | i <= |us|
      ensures NoLinkAt(m, Step(cur, us, i))
    {
      assert NoLinkAt(m, Step(cur, cs, i));
    }
  }

  /** RemoveAll takes the text as the name of something: it does not end in "." or "..", slashes
      aside, and is not just slashes. */
  predicate NamesPlace(s: string) {
    var cs := Untrailed(Split(s));
    cs != [] && Last(Split(s)) != "." && Real(Last(cs))
  }

  /** RemoveAll removes the place of the text: the text names it and leads to it. */
  ghost predicate Removes(env: Env, m: Tree, s: string) {
    NamesPlace(s) && PlaceOf(env.cwd, s) != [] && Passable(m, Base(env, s), Untrailed(Split(s)))
  }

  /** It removes that place, or at most empties it. */
  lemma RemovesOnly(env: Env, m: Tree, s: string)
    requires WF(m) && Straight(env, m, s)
    ensures var d, m2 := PlaceOf(env.cwd, s), RemoveText(env, m, s);
      && (if Removes(env, m, s) then m2 == Without(m, d)
          else m2 == m || (!Real(Last(Split(s))) && IsDir(m, d) && m2 == Emptied(m, d)))
      && (Untrailed(Split(s)) == [] || !Passable(m, Base(env, s), Untrailed(Split(s))) ==> m2 == m)
  {
    hide Walk, StraightFrom, Passable;
    var base, cs := Base(env, s), Untrailed(Split(s));
    UntrailedPrefix(base, Split(s));
    StraightPrefix(m, base, Split(s), cs);
    assert cs[..|cs|] == cs;
    if cs != [] {
      WalkFrom(m, base, cs, env.maxLinks, false);
      WalkFrom(m, base, cs, env.maxLinks, true);
      WalkStraight(m, base, cs, env.maxLinks, false);
      WalkStraight(m, base, cs, env.maxLinks, true);
      LastUntrailed(Split(s));
    }
  }

  lemma {:induction false} LastUntrailed(cs: seq<string>)
    requires cs != [] && Untrailed(cs) != []
    ensures Real(Last(cs)) ==> Last(Untrailed(cs)) == Last(cs)
    decreases |cs|
  {
  }

  // ------------------------------------------------------------------ containment

  lemma RollbackWithin(env: Env, job: Job, m: Tree, w2: World, created: bool, ok: bool)
    requires GoodJob(env, job) && WF(m) && Extends(m, w2.nodes, At(env, job.dst)) && LinksDown(m, At(env, job.dst))
    requires Straight(env, m, job.dst)
    ensures Within(m, RemoveOnError(env, w2, job.dst, created, ok).nodes, At(env, job.dst))
  {
    hide PlaceOf, Straight, RemoveText, Removes;
    StraightKept(env, m, w2.nodes, job.dst);
    RemovesOnly(env, w2.nodes, job.dst);
    var d, m2, m3 := At(env, job.dst), w2.nodes, RemoveOnError(env, w2, job.dst, created, ok).nodes;
    forall p
      ensures d <= p || Get(m3, p) == Get(m, p) || (p < d && p !in m && IsDir(m3, p))
    {
      assert d <= p || Get(m2, p) == Get(m, p) || (p < d && p !in m && IsDir(m2, p));
    }
  }

  /** Tar extraction of any archive, with arbitrary names, under any failures, into a destination
      whose symlinks lead downwards: no path outside dst changes, except that missing directories
      on the way to it are made. */
  lemma TarContained(env: Env, job: Job, w: World, archive: Archive)
    requires GoodJob(env, job) && WF(w.nodes) && LinksDown(w.nodes, At(env, job.dst)) && Straight(env, w.nodes, job.dst)
    ensures Within(w.nodes, TarExpand(env, job, w, archive).w.nodes, At(env, job.dst))
  {
    hide PlaceOf, Untar, StatText, RemoveOnError, Straight, LinksDown, Within, Grows;
    var w2 := Tick(Tick(w));
    UntarDown(env, job, w2, archive);
    var s := Untar(env, job, w2, archive);
    var created := StatText(env, Tick(w), job.dst) == NotExist;
    RollbackWithin(env, job, w.nodes, s.w, created, s.ok);
    WithinSelf(w.nodes, At(env, job.dst));
  }

  lemma WithinSelf(m: Tree, d: Path)
    ensures Within(m, m, d)
  {
  }

  /** The same for zip. */
  lemma ZipContained(env: Env, job: Job, w: World, entries: seq<Member>)
    requires GoodJob(env, job) && WF(w.nodes) && LinksDown(w.nodes, At(env, job.dst)) && Straight(env, w.nodes, job.dst)
    ensures Within(w.nodes, ZipExpand(env, job, w, entries).w.nodes, At(env, job.dst))
  {
    hide PlaceOf, Unzip, StatText, RemoveOnError, Straight, LinksDown, Within, Grows;
    var w2 := Tick(Tick(w));
    UnzipDown(env, job, w2, entries);
    var s := Unzip(env, job, w2, entries);
    var created := StatText(env, Tick(w), job.dst) == NotExist;
    RollbackWithin(env, job, w.nodes, s.w, created, s.ok);
    WithinSelf(w.nodes, At(env, job.dst));
  }

  // ------------------------------------------------------------------ in terms of the start

  /** The text passes through a place properly below the one it ends at, as "d/x/.." does. */
  ghost predicate Dips(env: Env, s: string) {
    exists i: nat :: i <= |Split(s)| && PlaceOf(env.cwd, s) < Step(Base(env, s), Split(s), i)
  }

  /** Once the place of the text is there, the text leads to it: every place it passes through is
      a directory already, or on the way to it. */
  ghost predicate WillLead(env: Env, m: Tree, s: string) {
    var base, cs := Base(env, s), Untrailed(Split(s));
    forall i: nat :: i < |cs| ==> IsDir(m, Step(base, cs, i)) || Step(base, cs, i) <= PlaceOf(env.cwd, s)
  }

  lemma StepSame(cur: Path, cs: seq<string>, i: nat)
    requires i <= |Untrailed(cs)|
    ensures Untrailed(cs) <= cs && Step(cur, Untrailed(cs), i) == Step(cur, cs, i)
  {
    UntrailedPrefix(cur, cs);
    assert Untrailed(cs)[..i] == cs[..i];
  }

  lemma StepLast(env: Env, s: string)
    ensures var cs := Untrailed(Split(s)); Step(Base(env, s), cs, |cs|) == PlaceOf(env.cwd, s)
  {
    var cs := Untrailed(Split(s));
    assert cs[..|cs|] == cs;
    UntrailedPrefix(Base(env, s), Split(s));
  }

  /** For a text that does not dip below its place, whether RemoveAll removes that place, once it
      has been made, can be read off the start. */
  lemma RemovesIff(env: Env, m: Tree, m2: Tree, s: string)
    requires WF(m2) && !Dips(env, s) && Within(m, m2, PlaceOf(env.cwd, s)) && IsDir(m2, PlaceOf(env.cwd, s))
    requires forall p :: IsDir(m, p) ==> IsDir(m2, p)
    ensures Removes(env, m2, s) <==> NamesPlace(s) && PlaceOf(env.cwd, s) != [] && WillLead(env, m, s)
  {
    hide PlaceOf;
    var base, cs, d := Base(env, s), Untrailed(Split(s)), PlaceOf(env.cwd, s);
    StepLast(env, s);
    forall i: nat | i < |cs|
      ensures IsDir(m2, Step(base, cs, i)) <==> IsDir(m, Step(base, cs, i)) || Step(base, cs, i) <= d
    {
      StepSame(base, Split(s), i);
      var q := Step(base, cs, i);
      assert !(d < q);
      assert d <= q || Get(m2, q) == Get(m, q) || (q < d && q !in m && IsDir(m2, q));
      if q <= d {
        Ancestors(m2, q, d);
      }
    }
  }

  /** A text without ".." passes through places on the way to its own only. */
  lemma PlainSteps(env: Env, s: string, i: nat)
    requires AllReal(env.cwd) && Plain(s) && i <= |Split(s)|
    ensures Step(Base(env, s), Split(s), i) <= PlaceOf(env.cwd, s)
  {
    var base, cs := Base(env, s), Split(s);
    assert cs == cs[..i] + cs[i..];
    FoldAppend(true, base, cs[..i], cs[i..]);
    assert forall x :: x in cs[i..] ==> x in cs;
    FoldKept(true, Fold(true, base, cs[..i]), cs[i..]);
  }

  lemma PlainIsStraight(env: Env, m: Tree, s: string)
    requires AllReal(env.cwd) && Plain(s) && IsDir(m, Base(env, s))
    requires forall q :: q in m && q <= PlaceOf(env.cwd, s) ==> !m[q].Link?
    ensures Straight(env, m, s) && !Dips(env, s) && WillLead(env, m, s) && !EndsUp(s)
  {
    hide PlaceOf;
    PlainPlace(env.cwd, s);
    var base, cs := Base(env, s), Split(s);
    forall i: nat | i <= |cs|
      ensures Step(base, cs, i) <= PlaceOf(env.cwd, s)
    {
      PlainSteps(env, s, i);
    }
    forall i: nat | i < |Untrailed(cs)|
      ensures Step(base, Untrailed(cs), i) <= PlaceOf(env.cwd, s)
    {
      StepSame(base, cs, i);
    }
  }
}
