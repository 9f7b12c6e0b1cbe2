/**
  What a run does to a destination that was there, and the inputs at which the promises about
  rollback and containment do not hold.
 */
module ExtractCases {
  import opened Paths
  import opened Os
  import opened RawPaths
  import opened Frames
  import opened Budget
  import opened Archives
  import opened ExtractFrame
  import opened ExtractDown
  import opened ExtractTheorems
  import opened ExtractRollback

  // ------------------------------------------------------------------ a destination that was there

  /** While everything on the way to d stays as it is, a text that does not dip below d can be
      passed afterwards exactly if it could before. */
  lemma PassableKept(env: Env, m: Tree, m2: Tree, s: string)
    requires WF(m) && PlaceOf(env.cwd, s) in m && Grows(m, m2) && Within(m, m2, PlaceOf(env.cwd, s)) && !Dips(env, s)
    ensures var base, cs := Base(env, s), Untrailed(Split(s)); Passable(m2, base, cs) <==> Passable(m, base, cs)
  {
    hide PlaceOf;
    var base, cs, d := Base(env, s), Untrailed(Split(s)), PlaceOf(env.cwd, s);
    StepLast(env, s);
    forall i: nat | i <= |cs|
      ensures IsDir(m2, Step(base, cs, i)) <==> IsDir(m, Step(base, cs, i))
    {
      StepSame(base, Split(s), i);
      var q := Step(base, cs, i);
      assert !(d < q);
      assert d <= q || Get(m2, q) == Get(m, q) || (q < d && q !in m && IsDir(m2, q));
      if q <= d {
        Ancestors(m, q, d);
      }
    }
  }

  lemma {:induction false} TrailIdle(cs: seq<string>)
    ensures Untrailed(cs) <= cs && Idle(cs[|Untrailed(cs)|..])
    decreases |cs|
  {
    if cs != [] && cs[|cs| - 1] == "" {
      var front := cs[..|cs| - 1];
      TrailIdle(front);
      assert cs[|Untrailed(front)|..] == front[|Untrailed(front)|..] + [""];
    }
  }

  /** What Stat does not find is not there to be removed either. */
  lemma NothingToRemove(env: Env, m: Tree, w: World, s: string)
    requires WF(m) && w.nodes == m && Straight(env, m, s) && StatText(env, w, s) == NotExist
    ensures var cs := Untrailed(Split(s)); cs == [] || !Passable(m, Base(env, s), cs)
  {
    hide Walk, StraightFrom, Passable;
    var base, cs := Base(env, s), Untrailed(Split(s));
    TrailIdle(Split(s));
    var tail := Split(s)[|cs|..];
    assert cs + tail == Split(s);
    if s != "" {
      WalkFrom(m, base, Split(s), env.maxLinks, true);
      StraightPrefix(m, base, Split(s), cs);
      WalkStraight(m, base, cs, env.maxLinks, true);
      TailNowhere(m, base, cs, tail, env.maxLinks);
    } else {
      assert Split(s) == [""];
      assert [""][..0] == [];
    }
  }

  /** A run into a destination that exists neither deletes it nor touches files that no entry names,
      unless its text dips below it and Stat does not find it. */
  lemma Kept(env: Env, job: Job, w: World, w2: World, ok: bool, files: set<Path>)
    requires Sound(env, job, w.nodes) && Straight(env, w.nodes, job.dst) && At(env, job.dst) in w.nodes
    requires Frame(w.nodes, w2.nodes, At(env, job.dst), files) && Grows(w.nodes, w2.nodes)
    requires StatText(env, w, job.dst) != NotExist || !Dips(env, job.dst)
    ensures RemoveOnError(env, w2, job.dst, StatText(env, w, job.dst) == NotExist, ok).nodes == w2.nodes
  {
    hide PlaceOf, Walk, RemoveText, Straight, Passable, StatText, Dips, Untrailed;
    if !ok && StatText(env, w, job.dst) == NotExist {
      StraightKept(env, w.nodes, w2.nodes, job.dst);
      NothingToRemove(env, w.nodes, w, job.dst);
      PassableKept(env, w.nodes, w2.nodes, job.dst);
      RemovesOnly(env, w2.nodes, job.dst);
    }
  }

  lemma TarKeepsDst(env: Env, job: Job, w: World, archive: Archive)
    requires Sound(env, job, w.nodes) && Straight(env, w.nodes, job.dst) && At(env, job.dst) in w.nodes
    requires StatText(env, Tick(w), job.dst) != NotExist || !Dips(env, job.dst)
    ensures Frame(w.nodes, TarExpand(env, job, w, archive).w.nodes, At(env, job.dst),
      FilesOf(env, job, archive.entries))
  {
    hide PlaceOf, Untar, StatText, RemoveOnError, Straight, LinksDown, Within, Dips, NoLinks;
    var w2 := Tick(Tick(w));
    UntarDown(env, job, w2, archive);
    UntarFrame(env, job, w2, archive);
    var s := Untar(env, job, w2, archive);
    Kept(env, job, Tick(w), s.w, s.ok, FilesOf(env, job, archive.entries));
    FrameSelf(env, job, w.nodes, FilesOf(env, job, archive.entries));
  }

  lemma FrameSelf(env: Env, job: Job, m: Tree, files: set<Path>)
    requires Sound(env, job, m)
    ensures Frame(m, m, At(env, job.dst), files)
  {
  }

  lemma ZipKeepsDst(env: Env, job: Job, w: World, entries: seq<Member>)
    requires Sound(env, job, w.nodes) && Straight(env, w.nodes, job.dst) && At(env, job.dst) in w.nodes
    requires StatText(env, Tick(w), job.dst) != NotExist || !Dips(env, job.dst)
    ensures Frame(w.nodes, ZipExpand(env, job, w, entries).w.nodes, At(env, job.dst), FilesOf(env, job, entries))
  {
    hide PlaceOf, Unzip, StatText, RemoveOnError, Straight, LinksDown, Within, Dips, NoLinks;
    var w2 := Tick(Tick(w));
    UnzipDown(env, job, w2, entries);
    UnzipFrame(env, job, w2, entries);
    var s := Unzip(env, job, w2, entries);
    Kept(env, job, Tick(w), s.w, s.ok, FilesOf(env, job, entries));
    FrameSelf(env, job, w.nodes, FilesOf(env, job, entries));
  }

  // ------------------------------------------------------------------ a destination that is a symlink leading nowhere

  /** d is a symlink whose target does not exist. */
  predicate Dangles(env: Env, m: Tree, d: Path) {
    d in m && m[d].Link? && Nowhere(Locate(env, m, d, true))
  }

  /** Nothing below such a place can be found. */
  lemma BelowDangling(env: Env, m: Tree, d: Path, p: Path, follow: bool)
    requires WF(m) && Dangles(env, m, d) && d <= p && (d == p ==> follow)
    ensures Nowhere(Locate(env, m, p, follow)) && (d < p ==> Locate(env, m, p, follow) == Absent)
  {
    hide Walk;
    if d != p {
      assert p == d + p[|d|..];
      WalkBlocked(m, [], d, p[|d|..], env.maxLinks, follow);
    }
  }

  lemma {:induction false} MkdirDangling(env: Env, w: World, d: Path, p: Path, perm: nat)
    requires WF(w.nodes) && Dangles(env, w.nodes, d) && d <= p
    ensures var r := MkdirAll(env, w, p, perm); !r.ok && r.w.nodes == w.nodes
    decreases |p|
  {
    hide Walk, Locate;
    BelowDangling(env, w.nodes, d, p, true);
    assert d != [];
    if p == d {
      DanglingEntry(env, w.nodes, d);
      assert IsDir(w.nodes, Parent(d));
      MkdirAllExisting(env, Tick(w), Parent(d), perm);
    } else {
      ParentPrefix(d, p);
      MkdirDangling(env, Tick(w), d, Parent(p), perm);
    }
  }

  lemma DanglingEntry(env: Env, m: Tree, d: Path)
    requires WF(m) && Dangles(env, m, d)
    ensures Locate(env, m, d, false).Found? && !IsDir(m, Locate(env, m, d, false).path)
  {
    hide Walk;
    DirIsClear(m, Parent(d));
    LocateEntry(env, m, d);
  }

  /** Every entry fails there, and changes nothing. */
  lemma TarEntryDangling(env: Env, job: Job, s: Tar, e: Entry)
    requires GoodJob(env, job) && WF(s.w.nodes) && Dangles(env, s.w.nodes, At(env, job.dst)) && s.ok
    ensures var r := TarEntry(env, job, s, e);
      r.w.nodes == s.w.nodes && r.seen == s.seen && (!e.kind.Extended? ==> !r.ok)
  {
    hide Walk, Locate, PlaceOf, Join, IsPathContained, MkdirAll, Chtimes, Dangles;
    if Contained(job, e) {
      EntryPlace(env, job, e);
      var d, p := At(env, job.dst), At(env, PathOf(job, e));
      MkdirDangling(env, s.w, d, p, DIR_MODE);
      MkdirDangling(env, Tick(s.w), d, Parent(p), DIR_MODE);
      BelowDangling(env, s.w.nodes, d, p, true);
    }
  }

  lemma {:induction false} TarLoopDangling(env: Env, job: Job, s: Tar, entries: seq<Entry>)
    requires GoodJob(env, job) && WF(s.w.nodes) && Dangles(env, s.w.nodes, At(env, job.dst)) && s.seen == map[]
    ensures var r := TarLoop(env, job, s, entries); r.w.nodes == s.w.nodes && r.seen == map[]
    decreases |entries|
  {
    hide Walk, Locate, PlaceOf, TarEntry, Dangles;
    if entries != [] && s.ok {
      TarEntryDangling(env, job, s, entries[0]);
      TarLoopDangling(env, job, TarEntry(env, job, s, entries[0]), entries[1..]);
    }
  }

  lemma UntarDangling(env: Env, job: Job, w: World, archive: Archive)
    requires GoodJob(env, job) && WF(w.nodes) && Dangles(env, w.nodes, At(env, job.dst))
    ensures Untar(env, job, w, archive).w.nodes == w.nodes
  {
    hide Walk, Locate, PlaceOf, TarLoop, Dangles;
    TarLoopDangling(env, job, StartTar(w), archive.entries);
    var s := TarLoop(env, job, StartTar(w), archive.entries);
    NoneSeen(env, job, s.w, s.seen, env.order(s.seen.Keys));
  }

  lemma {:induction false} ZipLoopDangling(env: Env, job: Job, s: Zip, entries: seq<Member>)
    requires GoodJob(env, job) && WF(s.w.nodes) && Dangles(env, s.w.nodes, At(env, job.dst))
    ensures ZipLoop(env, job, s, entries).w.nodes == s.w.nodes
    decreases |entries|
  {
    hide Walk, Locate, PlaceOf, Join, IsPathContained, MkdirAll, WriteEntry, Dangles;
    if entries != [] && s.ok {
      var e := entries[0];
      if Contained(job, e) {
        EntryPlace(env, job, e);
        var d, p := At(env, job.dst), At(env, PathOf(job, e));
        MkdirDangling(env, s.w, d, p, job.umask);
        MkdirDangling(env, s.w, d, Parent(p), job.umask);
      }
      ZipLoopDangling(env, job, ZipEntry(env, job, s, e), entries[1..]);
    }
  }

  // ------------------------------------------------------------------ when a destination is deleted

  /** The last real component of a text without "..", what is before it and what is after. */
  lemma {:induction false} SplitPlain(cur: Path, cs: seq<string>) returns (pre: seq<string>, tail: seq<string>)
    requires NoSlashes(cs) && ".." !in cs && Fold(true, cur, cs) != cur
    ensures var d := Fold(true, cur, cs);
      d != [] && cs == pre + [Last(d)] + tail && Idle(tail) && Fold(true, cur, pre) == Parent(d) && Real(Last(d))
    decreases |cs|
  {
    var front, c := cs[..|cs| - 1], cs[|cs| - 1];
    assert cs == front + [c];
    FoldAppend(true, cur, front, [c]);
    FoldOne(true, Fold(true, cur, front), c);
    assert forall x :: x in front ==> x in cs;
    assert c in cs;
    if c == "" || c == "." {
      pre, tail := SplitPlain(cur, front);
      assert pre + [Last(Fold(true, cur, cs))] + (tail + [c]) == front + [c];
      tail := tail + [c];
    } else {
      pre, tail := front, [];
      assert Fold(true, cur, cs) == Fold(true, cur, front) + [c];
    }
  }

  lemma PlainPrefix(m: Tree, cur: Path, pre: seq<string>, up: Path)
    requires WF(m) && IsDir(m, cur) && NoSlashes(pre) && ".." !in pre && Fold(true, cur, pre) == up && IsDir(m, up)
    ensures StraightFrom(m, cur, pre) && Passable(m, cur, pre) && Step(cur, pre, |pre|) == up
  {
    assert pre[..|pre|] == pre;
    forall i: nat | i <= |pre|
      ensures IsDir(m, Step(cur, pre, i))
    {
      assert pre == pre[..i] + pre[i..];
      FoldAppend(true, cur, pre[..i], pre[i..]);
      assert forall x :: x in pre[i..] ==> x in pre;
      FoldKept(true, Fold(true, cur, pre[..i]), pre[i..]);
      Ancestors(m, Step(cur, pre, i), up);
    }
  }

  /** The parts of a text without ".." whose place is a symlink, as resolution meets them. */
  lemma LinkParts(env: Env, m: Tree, s: string) returns (pre: seq<string>, tail: seq<string>)
    requires AllReal(env.cwd) && WF(m) && Plain(s) && IsDir(m, Base(env, s))
    requires var d := PlaceOf(env.cwd, s); d in m && m[d].Link?
    ensures var d := PlaceOf(env.cwd, s);
      && d != [] && Split(s) == pre + [Last(d)] + tail && Idle(tail) && Real(Last(d)) && IsDir(m, Parent(d))
      && (forall b, follow :: b != [] ==>
            Walk(m, [], false, [], Base(env, s) + (pre + b), env.maxLinks, follow)
              == Walk(m, [], false, Parent(d), b, env.maxLinks, follow))
  {
    hide Walk;
    var base, d := Base(env, s), PlaceOf(env.cwd, s);
    pre, tail := SplitPlain(base, Split(s));
    assert forall i :: 0 <= i < |pre| ==> pre[i] == Split(s)[i];
    assert forall x :: x in pre ==> x in Split(s);
    PlainPrefix(m, base, pre, Parent(d));
    WalkStraight(m, base, pre, env.maxLinks, true);
    forall b, follow | b != []
      ensures Walk(m, [], false, [], base + (pre + b), env.maxLinks, follow)
        == Walk(m, [], false, Parent(d), b, env.maxLinks, follow)
    {
      WalkFrom(m, base, pre + b, env.maxLinks, follow);
      WalkOn(m, [], false, base, pre, b, env.maxLinks, follow);
    }
  }

  lemma NamedEnd(cs: seq<string>, pre: seq<string>, n: string, tail: seq<string>)
    requires cs == pre + [n] + tail && Idle(tail) && Real(n)
    ensures var us := Untrailed(cs);
      && pre + [n] <= us && Idle(us[|pre| + 1..]) && us == pre + [n] + us[|pre| + 1..]
      && (Real(Last(us)) ==> us == pre + [n])
  {
    TrailIdle(cs);
    var us := Untrailed(cs);
    assert cs[|pre|] == n;
    assert us == cs[..|us|];
    forall i | |us| <= i < |cs|
      ensures cs[i] == "" || cs[i] == "."
    {
      assert cs[i] == cs[|us|..][i - |us|];
    }
    forall i | |pre| < i < |us|
      ensures us[i] == "" || us[i] == "."
    {
      assert us[i] == cs[i] == tail[i - |pre| - 1];
    }
  }

  /** Stat says of such a text that it does not exist exactly when the symlink dangles; RemoveAll
      deletes the symlink, if the text names it. */
  lemma LinkText(env: Env, m: Tree, s: string)
    requires AllReal(env.cwd) && WF(m) && Plain(s) && IsDir(m, Base(env, s))
    requires var d := PlaceOf(env.cwd, s); d in m && m[d].Link?
    ensures var d := PlaceOf(env.cwd, s);
      && s != ""
      && (Nowhere(Locate(env, m, RawPath(env.cwd, s), true)) <==> Dangles(env, m, d))
      && (Dangles(env, m, d) ==> RemoveText(env, m, s) == if NamesPlace(s) then Without(m, d) else m)
  {
    hide Walk;
    var base, d := Base(env, s), PlaceOf(env.cwd, s);
    var pre, tail := LinkParts(env, m, s);
    var up, n := Parent(d), Last(d);
    assert d == up + [n];
    WalkFrom(m, up, [n], env.maxLinks, true);
    assert Split(s) == pre + ([n] + tail);
    TailNowhere(m, up, [n], tail, env.maxLinks);
    NamedEnd(Split(s), pre, n, tail);
    var us := Untrailed(Split(s));
    var rest := us[|pre| + 1..];
    assert us == pre + ([n] + rest);
    TailNowhere(m, up, [n], rest, env.maxLinks);
    if NamesPlace(s) {
      assert us == pre + [n];
      LinkHere(m, up, n, env.maxLinks);
    }
  }

  lemma LinkHere(m: Tree, up: Path, n: string, links: nat)
    requires Real(n) && up + [n] in m && m[up + [n]].Link?
    ensures Walk(m, [], false, up, [n], links, false) == Found(up + [n], links)
  {
  }

  /** What is no symlink and exists is found by a text without "..", or refused. */
  lemma PlainKept(env: Env, w: World, m2: Tree, s: string)
    requires AllReal(env.cwd) && WF(w.nodes) && Plain(s) && IsDir(w.nodes, Base(env, s)) && Grows(w.nodes, m2)
    requires var d := PlaceOf(env.cwd, s); d in w.nodes && !w.nodes[d].Link?
    requires StatText(env, w, s) == NotExist
    ensures RemoveText(env, m2, s) == m2
  {
    hide Walk, RemoveText, Passable, Straight;
    var m, base, d, us := w.nodes, Base(env, s), PlaceOf(env.cwd, s), Untrailed(Split(s));
    forall q | q in m && q <= d
      ensures !m[q].Link?
    {
      Ancestors(m, q, d);
    }
    PlainIsStraight(env, m, s);
    StraightKept(env, m, m2, s);
    NothingToRemove(env, m, w, s);
    RemovesOnly(env, m2, s);
    PassablePlain(env, m, m2, s);
  }

  lemma PassablePlain(env: Env, m: Tree, m2: Tree, s: string)
    requires AllReal(env.cwd) && WF(m) && Plain(s) && PlaceOf(env.cwd, s) in m && Grows(m, m2)
    ensures var base, cs := Base(env, s), Untrailed(Split(s)); Passable(m2, base, cs) <==> Passable(m, base, cs)
  {
    hide PlaceOf;
    var base, cs, d := Base(env, s), Untrailed(Split(s)), PlaceOf(env.cwd, s);
    StepLast(env, s);
    forall i: nat | i <= |cs|
      ensures IsDir(m2, Step(base, cs, i)) <==> IsDir(m, Step(base, cs, i))
    {
      StepSame(base, Split(s), i);
      PlainSteps(env, s, i);
      Ancestors(m, Step(base, cs, i), d);
    }
  }

  /** A failed run, given what the extraction left. */
  lemma DeletedIff(env: Env, job: Job, w: World, w2: World, created: bool)
    requires AllReal(env.cwd) && WF(w.nodes) && Plain(job.dst) && IsDir(w.nodes, Base(env, job.dst))
    requires At(env, job.dst) in w.nodes && Grows(w.nodes, w2.nodes)
    requires Dangles(env, w.nodes, At(env, job.dst)) ==> w2.nodes == w.nodes
    requires created == (StatText(env, w, job.dst) == NotExist)
    ensures At(env, job.dst) !in RemoveOnError(env, w2, job.dst, created, false).nodes <==>
      !env.fault(w.tick) && Dangles(env, w.nodes, At(env, job.dst)) && NamesPlace(job.dst)
  {
    hide Walk, Locate, RemoveText, PlaceOf, NamesPlace;
    if w.nodes[At(env, job.dst)].Link? {
      LinkText(env, w.nodes, job.dst);
    } else if created {
      PlainKept(env, w, w2.nodes, job.dst);
    }
  }

  /** A failed run deletes a destination that was there, written without "..", exactly when it is
      a symlink that leads nowhere: Stat follows it and says that it does not exist, and
      RemoveAll deletes it.  (Unless a call before fails, or the text does not name it.) */
  lemma TarDstDeletedIff(env: Env, job: Job, w: World, archive: Archive)
    requires AllReal(env.cwd) && WF(w.nodes) && Plain(job.dst) && IsDir(w.nodes, Base(env, job.dst))
    requires At(env, job.dst) in w.nodes && !TarExpand(env, job, w, archive).ok
    ensures At(env, job.dst) !in TarExpand(env, job, w, archive).w.nodes <==>
      && !env.fault(w.tick) && !env.fault(w.tick + 1)
      && Dangles(env, w.nodes, At(env, job.dst)) && NamesPlace(job.dst)
  {
    hide Walk, Locate, PlaceOf, Untar, StatText, RemoveOnError, NamesPlace, Dangles, Grows;
    PlainPlace(env.cwd, job.dst);
    var w2 := Tick(Tick(w));
    UntarDown(env, job, w2, archive);
    if Dangles(env, w.nodes, At(env, job.dst)) {
      UntarDangling(env, job, w2, archive);
    }
    DeletedIff(env, job, Tick(w), Untar(env, job, w2, archive).w, StatText(env, Tick(w), job.dst) == NotExist);
  }

  lemma ZipDstDeletedIff(env: Env, job: Job, w: World, entries: seq<Member>)
    requires AllReal(env.cwd) && WF(w.nodes) && Plain(job.dst) && IsDir(w.nodes, Base(env, job.dst))
    requires At(env, job.dst) in w.nodes && !ZipExpand(env, job, w, entries).ok
    ensures At(env, job.dst) !in ZipExpand(env, job, w, entries).w.nodes <==>
      && !env.fault(w.tick) && !env.fault(w.tick + 1)
      && Dangles(env, w.nodes, At(env, job.dst)) && NamesPlace(job.dst)
  {
    hide Walk, Locate, PlaceOf, ZipLoop, StatText, RemoveOnError, NamesPlace, Dangles, Grows;
    PlainPlace(env.cwd, job.dst);
    var w2 := Tick(Tick(w));
    UnzipDown(env, job, w2, entries);
    if Dangles(env, w.nodes, At(env, job.dst)) {
      ZipLoopDangling(env, job, Zip(w2, 0, 0, true), entries);
    }
    DeletedIff(env, job, Tick(w), Unzip(env, job, w2, entries).w, StatText(env, Tick(w), job.dst) == NotExist);
  }

  // ------------------------------------------------------------------ inputs at which something stays

  lemma OneDirectory(env: Env, job: Job, w: World, e: Entry)
    requires e.kind.Directory? && Contained(job, e) && 1 <= job.limits.files
    requires MkdirAll(env, w, At(env, PathOf(job, e)), DIR_MODE).ok
    ensures var r := Untar(env, job, w, Archive([e], true));
      !r.ok && r.w == MkdirAll(env, w, At(env, PathOf(job, e)), DIR_MODE).w
  {
    hide Walk, PlaceOf, Join, IsPathContained, MkdirAll;
    var s := TarEntry(env, job, StartTar(w), e);
    assert TarLoop(env, job, s, []) == s;
    assert TarLoop(env, job, StartTar(w), [e]) == s;
  }

  /** A call can fail: Stat fails, the directory of one entry is made, and then the archive turns
      out to be damaged. */
  lemma RollbackNeedsStat(env: Env, job: Job, w: World, e: Entry)
    requires Sound(env, job, w.nodes) && !env.fault(w.tick) && env.fault(w.tick + 1)
    requires e.kind.Directory? && Contained(job, e) && 1 <= job.limits.files
    requires MkdirAll(env, Tick(Tick(w)), At(env, PathOf(job, e)), DIR_MODE).ok
    ensures var r := TarExpand(env, job, w, Archive([e], true)); !r.ok && IsDir(r.w.nodes, At(env, job.dst))
  {
    hide Walk, PlaceOf, Join, IsPathContained, NoLinks, Untar;
    var d, p, w1 := At(env, job.dst), At(env, PathOf(job, e)), Tick(Tick(w));
    EntryPlace(env, job, e);
    ClearBelow(w.nodes, d, p);
    MkdirAllEffect(env, w1, p, DIR_MODE);
    Ancestors(MkdirAll(env, w1, p, DIR_MODE).w.nodes, d, p);
    OneDirectory(env, job, w1, e);
  }

  lemma RelativeText(s: string, cs: seq<string>)
    requires cs != [] && NoSlashes(cs) && s == Text(cs) && cs[0] != ""
    ensures Split(s) == cs && !Rooted(s)
  {
    SplitText(cs);
    assert s[0] == cs[0][0];
  }

  lemma RootedText(s: string, cs: seq<string>)
    requires cs != [] && NoSlashes(cs) && s == "/" + Text(cs)
    ensures Split(s) == [""] + cs && Rooted(s)
  {
    SplitText(cs);
    assert s == "" + "/" + Text(cs);
    SplitAppend("", Text(cs));
    SplitWord("");
  }

  /** The entry "x" in a destination with real components. */
  lemma PlaceOfX(env: Env, job: Job, e: Entry)
    requires AllReal(env.cwd) && e.name == "x" && job.dst != ""
    requires Comps(job.dst) != [] && AllReal(Comps(job.dst))
    ensures Contained(job, e) && !EndsUp(job.dst) && At(env, PathOf(job, e)) == At(env, job.dst) + ["x"]
  {
    var s, rooted, c := job.dst + "/" + "x", Rooted(job.dst), Comps(job.dst);
    hide Fold, PlaceOf, Text;
    SplitAppend(job.dst, "x");
    SplitWord("x");
    FoldAppend(rooted, [], Split(job.dst), ["x"]);
    FoldOne(rooted, c, "x");
    assert Rooted(s) == rooted && Comps(s) == c + ["x"];
    CompsNormal(s);
    RenderRoundTrip(rooted, c + ["x"]);
    CompsNormal(job.dst);
    RenderRoundTrip(rooted, c);
    DotComps();
    ContainedIff(PathOf(job, e), job.dst);
    assert c < c + ["x"];
    ContainedLocation(env.cwd, PathOf(job, e), job.dst);
    assert (c + ["x"])[|c|..] == ["x"];
  }

  lemma DotComps()
    ensures Comps(".") == []
  {
    SplitWord(".");
    assert ["."][1..] == [];
  }

  /** Only "/" exists, and the destination is "a/../b".  Stat says that it does not exist; the
      directory "x" goes to /b, the cleaned place; then the archive turns out to be damaged.  There
      is no a, so RemoveAll finds nothing: /b stays. */
  lemma SidewaysStays(env: Env, job: Job, w: World, e: Entry)
    requires NoFault(env) && env.cwd == [] && w.nodes == map[[] := Dir(493)] && job.dst == "a/../b"
    requires e.kind.Directory? && e.name == "x" && 1 <= job.limits.files
    ensures var r := TarExpand(env, job, w, Archive([e], true)); !r.ok && IsDir(r.w.nodes, ["b"])
  {
    hide Walk, Locate, Untar, MkdirAll, StatText, RemoveText, Fold, Comps, PlaceOf, Render, IsPathContained;
    var d: Path, p: Path := ["b"], ["b", "x"];
    SidewaysPlace(env, job);
    PlaceOfX(env, job, e);
    var w1 := Tick(Tick(w));
    assert d + ["x"] == p && Real("b") && Real("x");
    MkdirAllEffect(env, w1, p, DIR_MODE);
    var m2 := MkdirAll(env, w1, p, DIR_MODE).w.nodes;
    Ancestors(m2, d, p);
    OneDirectory(env, job, w1, e);
    assert ["a"] !in m2 by {
      assert !(["a"] <= p);
    }
    NothingSideways(env, m2, ["a", "..", "b"]);
  }

  lemma SidewaysPlace(env: Env, job: Job)
    requires env.cwd == [] && job.dst == "a/../b"
    ensures Split(job.dst) == ["a", "..", "b"] && !Rooted(job.dst)
    ensures Comps(job.dst) == ["b"] && At(env, job.dst) == ["b"]
  {
    var cs: seq<string> := ["a", "..", "b"];
    assert Text(["..", "b"]) == "../b" by { assert ["..", "b"][1..] == ["b"]; }
    assert Text(cs) == "a/../b" by { assert cs[1..] == ["..", "b"]; }
    RelativeText("a/../b", cs);
    FoldB(cs, true);
    FoldB(cs, false);
  }

  lemma FoldB(cs: seq<string>, rooted: bool)
    requires cs == ["a", "..", "b"]
    ensures Fold(rooted, [], cs) == ["b"]
  {
    assert cs[1..] == ["..", "b"] && cs[1..][1..] == ["b"];
    assert Push(rooted, [], "a") == ["a"] && Push(rooted, ["a"], "..") == [];
    FoldOne(rooted, [], "b");
    assert [] + ["b"] == ["b"];
  }

  lemma NothingSideways(env: Env, m: Tree, cs: seq<string>)
    requires cs == ["a", "..", "b"] && ["a"] !in m && env.cwd == [] && Split("a/../b") == cs && !Rooted("a/../b")
    ensures RemoveText(env, m, "a/../b") == m
  {
    assert Untrailed(cs) == cs;
    assert [] + cs == cs && [] + ["a"] == ["a"];
    assert cs[1..] != [];
    assert Locate(env, m, cs, false) == Absent;
  }

  /** The same for zip: after the directory "x" comes an entry that is too large. */
  lemma ZipSidewaysStays(env: Env, job: Job, w: World, e: Member, large: Member)
    requires NoFault(env) && env.cwd == [] && w.nodes == map[[] := Dir(493)] && job.dst == "a/../b"
    requires e.kind.Directory? && e.name == "x" && 2 <= job.limits.files
    requires e.size <= job.limits.maxEntry < large.size
    ensures var r := ZipExpand(env, job, w, [e, large]); !r.ok && IsDir(r.w.nodes, ["b"])
  {
    hide Walk, Locate, MkdirAll, StatText, RemoveText, Fold, Comps, PlaceOf, Render, IsPathContained;
    var d: Path, p: Path := ["b"], ["b", "x"];
    SidewaysPlace(env, job);
    PlaceOfX(env, job, e);
    var w1 := Tick(Tick(w));
    assert d + ["x"] == p && Real("b") && Real("x");
    MkdirAllEffect(env, w1, p, job.umask);
    var m2 := MkdirAll(env, w1, p, job.umask).w.nodes;
    Ancestors(m2, d, p);
    var s1 := ZipEntry(env, job, Zip(w1, 0, 0, true), e);
    assert ZipLoop(env, job, s1, [large]).w == s1.w && !ZipLoop(env, job, s1, [large]).ok;
    assert [e, large][1..] == [large];
    assert ZipLoop(env, job, Zip(w1, 0, 0, true), [e, large]) == ZipLoop(env, job, s1, [large]);
    assert ["a"] !in m2 by {
      assert !(["a"] <= p);
    }
    NothingSideways(env, m2, ["a", "..", "b"]);
  }

  const DANGLING: Tree := map[[] := Dir(493), ["d"] := Link("t")]

  lemma DanglingPlace(env: Env)
    ensures Rooted("/d") && PlaceOf(env.cwd, "/d") == ["d"] && Plain("/d") && NamesPlace("/d") && WF(DANGLING)
  {
    hide Fold, Split, PlaceOf, Comps;
    assert Text(["d"]) == "d" && Real("d");
    RootedComps(env.cwd, "/d", ["d"]);
    assert Untrailed([""] + ["d"]) == [""] + ["d"];
    assert Parent(["d"]) == [];
  }

  lemma DanglingLeads(env: Env)
    requires env.maxLinks > 0
    ensures Dangles(env, DANGLING, ["d"])
  {
    var m, n := DANGLING, env.maxLinks;
    SplitWord("t");
    assert ["d"][1..] == [] && ["t"] + [] == ["t"] && ["t"][1..] == [];
    assert [] + ["d"] == ["d"] && [] + ["t"] == ["t"];
    assert ["d"] in m && m[["d"]] == Link("t") && ["t"] !in m;
    assert Walk(m, [], false, [], ["t"], n - 1, true) == Missing(["t"]);
  }

  /** The destination "/d" is a symlink to what does not exist, and the archive is empty: the run
      fails, and the symlink, which was there before, is deleted. */
  lemma DanglingDeleted(env: Env, job: Job, w: World)
    requires NoFault(env) && env.maxLinks > 0 && AllReal(env.cwd) && w.nodes == DANGLING && job.dst == "/d"
    ensures ["d"] in w.nodes && !TarExpand(env, job, w, Archive([], false)).ok
    ensures ["d"] !in TarExpand(env, job, w, Archive([], false)).w.nodes
  {
    hide Walk, Locate, PlaceOf, Split, StatText, NamesPlace, Dangles;
    DanglingPlace(env);
    DanglingLeads(env);
    TarDstDeletedIff(env, job, w, Archive([], false));
  }

  // ------------------------------------------------------------------ a destination text that dips

  const FULL: Tree := map[[] := Dir(493), ["d"] := Dir(493), ["d", "f"] := File([], 420)]

  lemma DipPlace(env: Env, job: Job)
    requires job.dst == "/d/x/.."
    ensures Split(job.dst) == ["", "d", "x", ".."] && Rooted(job.dst)
    ensures Comps(job.dst) == ["d"] && At(env, job.dst) == ["d"]
  {
    hide Fold, Split, Push;
    var cs: seq<string> := ["d", "x", ".."];
    assert Text(["x", ".."]) == "x/.." by { assert ["x", ".."][1..] == [".."]; }
    assert Text(cs) == "d/x/.." by { assert cs[1..] == ["x", ".."]; }
    RootedText("/d/x/..", cs);
    var all := ["", "d"] + ["x", ".."];
    assert [""] + cs == all;
    FoldAppend(true, [], ["", "d"], ["x", ".."]);
    FoldTwo(true, [], "", "d");
    FoldTwo(true, ["d"], "x", "..");
    DipPushes();
  }

  lemma DipPushes()
    ensures Push(true, [], "") == [] && Push(true, [], "d") == ["d"] && Push(true, ["d"], "x") == ["d", "x"]
    ensures Push(true, ["d", "x"], "..") == ["d"]
  {
  }

  /** Resolving "/d/x/.." needs x. */
  lemma DipLeads(env: Env, m: Tree)
    requires IsDir(m, ["d"]) && (["d", "x"] in m ==> IsDir(m, ["d", "x"]))
    ensures Locate(env, m, ["", "d", "x", ".."], true) ==
      if ["d", "x"] in m then Found(["d"], env.maxLinks) else Absent
  {
    var n := env.maxLinks;
    assert [] + ["d"] == ["d"] && ["d"] + ["x"] == ["d", "x"] && Parent(["d", "x"]) == ["d"];
    assert ["", "d", "x", ".."][1..] == ["d", "x", ".."] && ["d", "x", ".."][1..] == ["x", ".."];
    assert ["x", ".."][1..] == [".."] && [".."][1..] == [];
    assert Walk(m, [], false, ["d"], [], n, true) == Found(["d"], n);
    if ["d", "x"] in m {
      assert Walk(m, [], false, ["d", "x"], [".."], n, true) == Found(["d"], n);
    }
    assert Walk(m, [], false, ["d"], ["x", ".."], n, true) == if ["d", "x"] in m then Found(["d"], n) else Absent;
    assert Walk(m, [], false, [], ["d", "x", ".."], n, true) == Walk(m, [], false, ["d"], ["x", ".."], n, true);
  }

  /** The destination is "/d/x/.."; /d is there and has a file f, but there is no x.  Stat says that
      it does not exist; the directory "x" is made in the cleaned place, which is /d; then the
      archive turns out to be damaged.  Now the text leads to /d, and RemoveAll empties it. */
  lemma DipEmpties(env: Env, job: Job, w: World, e: Entry)
    requires NoFault(env) && env.cwd == [] && w.nodes == FULL && job.dst == "/d/x/.."
    requires e.kind.Directory? && e.name == "x" && 1 <= job.limits.files
    ensures var r := TarExpand(env, job, w, Archive([e], true));
      !r.ok && ["d", "f"] in w.nodes && ["d", "f"] !in r.w.nodes
  {
    hide Walk, Locate, Untar, MkdirAll, Fold, Comps, PlaceOf, Render, IsPathContained, Split;
    var d: Path, p: Path := ["d"], ["d", "x"];
    DipPlace(env, job);
    PlaceOfX(env, job, e);
    FullIsTree();
    DipLeads(env, w.nodes);
    var w1 := Tick(Tick(w));
    assert d + ["x"] == p && Real("d") && Real("x");
    MkdirAllEffect(env, w1, p, DIR_MODE);
    OneDirectory(env, job, w1, e);
    var m2 := MkdirAll(env, w1, p, DIR_MODE).w.nodes;
    DipLeads(env, m2);
    assert Untrailed(Split(job.dst)) == Split(job.dst);
    assert [] + Split(job.dst) == Split(job.dst);
    assert d < ["d", "f"];
  }

  lemma FullIsTree()
    ensures WF(FULL) && ["d", "x"] !in FULL && Clear(FULL, ["d", "x"]) && DirsOnWay(FULL, ["d", "x"])
  {
    assert Parent(["d"]) == [] && Parent(["d", "f"]) == ["d"];
    assert Real("d") && Real("f");
    assert ["d", "f"] != ["d", "x"] by { assert ["d", "f"][1] != ["d", "x"][1]; }
  }

  // ------------------------------------------------------------------ a destination that ends in ".."

  /** The containment check of the entries is enough, for every entry, exactly when dst does not
      end in "..", or its place is "/": from "..", the check also passes an entry that goes up
      once more. */
  lemma CheckIsEnoughIff(env: Env, job: Job)
    requires AllReal(env.cwd)
    ensures (forall e: Entry :: Contained(job, e) ==> At(env, job.dst) <= At(env, PathOf(job, e))) <==>
      !EndsUp(job.dst) || At(env, job.dst) == []
  {
    hide PlaceOf, IsPathContained;
    if !EndsUp(job.dst) {
      forall e: Entry | Contained(job, e)
        ensures At(env, job.dst) <= At(env, PathOf(job, e))
      {
        EntryPlace(env, job, e);
      }
    } else if At(env, job.dst) != [] {
      var e := Upward(env, job);
      assert Contained(job, e) && !(At(env, job.dst) <= At(env, PathOf(job, e)));
    }
  }

  /** An entry that goes up once more and comes down elsewhere. */
  lemma Upward(env: Env, job: Job) returns (e: Entry)
    requires AllReal(env.cwd) && EndsUp(job.dst) && At(env, job.dst) != []
    ensures Contained(job, e) && !(At(env, job.dst) <= At(env, PathOf(job, e)))
  {
    hide Fold, Comps, Normal, Push, Join, IsPathContained;
    var d, c := At(env, job.dst), Comps(job.dst);
    PlaceByComps(env.cwd, job.dst);
    UpwardRelative(job.dst);
    var n := Last(d) + "x";
    OtherName(Last(d), n);
    var name := "../" + n;
    e := Entry(name, Directory, 0, 0, None, None, Stream([], false));
    UpwardPath(job, e, n);
    var f := PathOf(job, e);
    PlaceByComps(env.cwd, f);
    FoldAppend(true, env.cwd, c, ["..", n]);
    FoldTwo(true, d, "..", n);
    UpwardPush(d, n);
    assert d == Parent(d) + [Last(d)];
  }

  lemma UpwardRelative(s: string)
    requires EndsUp(s)
    ensures !Rooted(s)
  {
    CompsNormal(s);
    NormalEnd(Rooted(s), Comps(s), |Comps(s)| - 1);
  }

  lemma NormalEnd(rooted: bool, c: Path, i: nat)
    requires Normal(rooted, c) && i < |c|
    ensures c[i] == ".." ==> !rooted
  {
    if rooted {
      NoDots(rooted, c, i);
    }
  }

  lemma OtherName(l: string, n: string)
    requires Real(l) && n == l + "x"
    ensures Real(n) && n != l
  {
    assert n[|n| - 1] == 'x' && |n| > |l|;
  }

  lemma UpwardPush(d: Path, n: string)
    requires d != [] && AllReal(d) && Real(n)
    ensures Push(true, Push(true, d, ".."), n) == Parent(d) + [n]
  {
    assert Real(Last(d));
  }

  lemma UpwardPath(job: Job, e: Entry, n: string)
    requires EndsUp(job.dst) && !Rooted(job.dst) && e.name == "../" + n && Real(n)
    ensures Contained(job, e) && !Rooted(PathOf(job, e)) && Comps(PathOf(job, e)) == Comps(job.dst) + ["..", n]
  {
    hide Text, Render, Fold, Split, Normal;
    var c, s := Comps(job.dst), job.dst + "/" + e.name;
    CompsNormal(job.dst);
    assert job.dst != "" by { EmptyPath(); }
    assert e.name == ".." + "/" + n;
    SplitAppend("..", n);
    SplitWord("..");
    SplitWord(n);
    SplitAppend(job.dst, e.name);
    assert [".."] + [n] == ["..", n];
    FoldAppend(false, [], Split(job.dst), ["..", n]);
    FoldTwo(false, c, "..", n);
    assert Push(false, Push(false, c, ".."), n) == c + [".."] + [n] == c + ["..", n];
    CompsNormal(s);
    RenderRoundTrip(false, Comps(s));
    RenderRoundTrip(false, c);
    ContainedIff(PathOf(job, e), job.dst);
    DotComps();
  }
}
