/**
  What a failed extraction leaves.  The rollback depends on what one Stat of the destination says
  and on what the text of the destination leads to when it is removed.
 */
module ExtractRollback {
  import opened Paths
  import opened Os
  import opened RawPaths
  import opened Frames
  import opened Archives
  import opened ExtractFrame
  import opened ExtractDown
  import opened ExtractTheorems

  // ------------------------------------------------------------------ how far MkdirAll gets

  /** The nearest place on the way to p that exists. */
  function Stem(m: Tree, p: Path): (a: Path)
    ensures a <= p && (a in m || a == [])
    decreases |p|
  {
    if p in m || p == [] then p else Stem(m, Parent(p))
  }

  lemma {:induction false} StemIsLast(m: Tree, p: Path)
    requires WF(m) && p !in m
    ensures var a := Stem(m, p); a < p && a in m && p[..|a| + 1] !in m
    decreases |p|
  {
    var up := Parent(p);
    if up in m {
      assert p[..|up| + 1] == p;
    } else {
      StemIsLast(m, up);
      var a := Stem(m, up);
      assert up[..|a| + 1] == p[..|a| + 1];
    }
  }

  lemma FailsLast(env: Env, from: nat, n: nat)
    ensures NoneFails(env, from, n + 1) <==> NoneFails(env, from, n) && !env.fault(from + n)
  {
  }

  /** MkdirAll of a directory that exists, n components deep, from tick t on: the tick after it, or
      None if it fails.  A failing look-up sends it to the parent; on the way back Mkdir fails, and
      what counts is the Lstat after it. */
  function Settles(env: Env, t: nat, n: nat): Option<nat>
    decreases n
  {
    if !env.fault(t) then Some(t + 1)
    else
      var up := if n == 0 then Some(t + 1) else Settles(env, t + 1, n - 1);
      if up.None? || env.fault(up.value + 1) then None else Some(up.value + 2)
  }

  /** Making the directories for p, from tick t on, gets as far as d: the missing part begins in a
      directory, which is settled after the look-ups of what is missing, and then no Mkdir fails up
      to the one that makes d. */
  predicate Reaches(env: Env, m: Tree, t: nat, d: Path, p: Path)
    requires d <= p
  {
    var a := Stem(m, d);
    var s := Settles(env, t + |p| - |a|, |a|);
    IsDir(m, a) && s.Some? && NoneFails(env, s.value, |d| - |a|)
  }

  lemma DirIsClear(m: Tree, p: Path)
    requires WF(m) && IsDir(m, p)
    ensures Clear(m, p) && AllReal(p) && (p != [] ==> IsDir(m, Parent(p)))
  {
    forall q | q in m && q <= p
      ensures !m[q].Link?
    {
      Ancestors(m, q, p);
    }
  }

  lemma CheckedExisting(env: Env, w: World, p: Path, perm: nat)
    requires WF(w.nodes) && IsDir(w.nodes, p)
    ensures var r := MkdirChecked(env, w, p, perm);
      r.w.nodes == w.nodes && (r.ok <==> !env.fault(w.tick + 1)) && r.w.tick == w.tick + 2
  {
    hide Walk;
    DirIsClear(w.nodes, p);
    LocateClear(env, w.nodes, p, false);
  }

  lemma {:induction false} MkdirAllExisting(env: Env, w: World, p: Path, perm: nat)
    requires WF(w.nodes) && IsDir(w.nodes, p)
    ensures var r, s := MkdirAll(env, w, p, perm), Settles(env, w.tick, |p|);
      r.w.nodes == w.nodes && (r.ok <==> s.Some?) && (r.ok ==> r.w.tick == s.value)
    decreases |p|
  {
    hide Walk, MkdirChecked, Clear;
    DirIsClear(w.nodes, p);
    LocateClear(env, w.nodes, p, true);
    if p == [] {
      CheckedExisting(env, Tick(w), p, perm);
    } else {
      MkdirAllExisting(env, Tick(w), Parent(p), perm);
      CheckedExisting(env, MkdirAll(env, Tick(w), Parent(p), perm).w, p, perm);
    }
  }

  lemma StemMissing(m: Tree, a: Path, p: Path)
    requires WF(m) && a < p && p[..|a| + 1] !in m
    ensures p !in m && p != [] && a <= Parent(p)
    ensures Parent(p) != a ==> Parent(p)[..|a| + 1] == p[..|a| + 1]
  {
    if p in m {
      Ancestors(m, p[..|a| + 1], p);
    }
    ParentPrefix(a, p);
    assert |Parent(p)| == |a| ==> Parent(p) == a;
  }

  lemma MkdirStep(env: Env, m: Tree, w: World, p: Path, perm: nat, made: nat)
    requires WF(w.nodes) && AllReal(p) && p != [] && Clear(m, p) && MadeDirs(m, w.nodes, Parent(p), made)
    requires IsDir(w.nodes, Parent(p)) && p !in m
    ensures var r := MkdirChecked(env, w, p, perm);
      && (r.ok <==> !env.fault(w.tick)) && (r.ok ==> r.w.tick == w.tick + 1)
      && (forall q :: q in r.w.nodes <==> q in w.nodes || (r.ok && q == p))
  {
    hide Walk;
    assert p !in w.nodes by {
      assert !(p <= Parent(p));
    }
    LocateClear(env, w.nodes, p, false);
  }

  lemma NothingThere(m: Tree, a: Path, d: Path, p: Path)
    requires WF(m) && a < p && p[..|a| + 1] !in m
    ensures a < d <= p ==> d !in m
  {
    if a < d <= p && d in m {
      assert d[..|a| + 1] == p[..|a| + 1];
      Ancestors(m, p[..|a| + 1], d);
    }
  }

  /** MkdirAll looks for p, its parent and so on up to the stem, and then makes one directory after
      the other on the way back. */
  lemma {:induction false} MkdirAllTicks(env: Env, w: World, a: Path, d: Path, p: Path, perm: nat)
    requires WF(w.nodes) && AllReal(p) && Clear(w.nodes, p)
    requires IsDir(w.nodes, a) && a <= p && (p != a ==> p[..|a| + 1] !in w.nodes)
    ensures var r, s := MkdirAll(env, w, p, perm), Settles(env, w.tick + |p| - |a|, |a|);
      && (r.ok <==> s.Some? && NoneFails(env, s.value, |p| - |a|))
      && (r.ok ==> r.w.tick == s.value + |p| - |a|)
      && (a < d <= p ==> (d in r.w.nodes <==> s.Some? && NoneFails(env, s.value, |d| - |a|)))
    decreases |p|
  {
    hide Walk;
    var m := w.nodes;
    if p == a {
      MkdirAllExisting(env, w, p, perm);
    } else {
      StemMissing(m, a, p);
      MkdirTicks(env, w, a, d, p, perm);
    }
  }

  lemma MkdirTicks(env: Env, w: World, a: Path, d: Path, p: Path, perm: nat)
    requires WF(w.nodes) && AllReal(p) && Clear(w.nodes, p)
    requires IsDir(w.nodes, a) && a < p && p[..|a| + 1] !in w.nodes && p !in w.nodes
    ensures var r, s := MkdirAll(env, w, p, perm), Settles(env, w.tick + |p| - |a|, |a|);
      && (r.ok <==> s.Some? && NoneFails(env, s.value, |p| - |a|))
      && (r.ok ==> r.w.tick == s.value + |p| - |a|)
      && (a < d <= p ==> (d in r.w.nodes <==> s.Some? && NoneFails(env, s.value, |d| - |a|)))
    decreases |p|, 0
  {
    hide Walk, Locate, NoneFails, MkdirChecked, Settles;
    var m, up, n := w.nodes, Parent(p), |p| - |a|;
    LocateClear(env, m, p, true);
    StemMissing(m, a, p);
    NothingThere(m, a, d, p);
    ClearParent(m, p);
    hide Clear, MadeDirs, DirsOnWay, AllReal;
    MkdirAllTicks(env, Tick(w), a, d, up, perm);
    MkdirAllEffect(env, Tick(w), up, perm);
    var r, s := MkdirAll(env, Tick(w), up, perm), Settles(env, w.tick + n, |a|);
    if s.Some? {
      FailsLast(env, s.value, n - 1);
    }
    if r.ok {
      MkdirStep(env, m, r.w, p, perm, env.masked(perm));
    }
    if a < d <= p && d != p {
      ParentPrefix(d, p);
    }
  }

  /** Whether the directories for p get as far as d, which is absent. */
  lemma MkdirReaches(env: Env, w: World, d: Path, p: Path, perm: nat)
    requires WF(w.nodes) && AllReal(p) && Clear(w.nodes, p) && d <= p && d !in w.nodes
    ensures d in MkdirAll(env, w, p, perm).w.nodes <==> Reaches(env, w.nodes, w.tick, d, p)
  {
    hide Walk;
    var m, a := w.nodes, Stem(w.nodes, d);
    StemIsLast(m, d);
    assert d[..|a| + 1] == p[..|a| + 1];
    assert a <= p;
    MkdirAllEffect(env, w, p, perm);
    if IsDir(m, a) {
      MkdirAllTicks(env, w, a, d, p, perm);
    } else if d in MkdirAll(env, w, p, perm).w.nodes {
      Ancestors(MkdirAll(env, w, p, perm).w.nodes, a, d);
    }
  }

  // ------------------------------------------------------------------ tar

  /** The first entry that is not an extended header is admitted, and making its directory, or
      the directory of its file, gets as far as dst. */
  ghost predicate Begins(env: Env, job: Job, m: Tree, t: nat, entries: seq<Entry>)
    requires GoodJob(env, job)
  {
    if entries == [] then false
    else
      var e := entries[0];
      if e.kind.Extended? then Begins(env, job, m, t, entries[1..])
      else
        && 1 <= job.limits.files && Contained(job, e)
        && (EntryPlace(env, job, e);
            var d, p := At(env, job.dst), At(env, PathOf(job, e));
            if e.kind.Directory? then Reaches(env, m, t, d, p)
            else e.size <= job.limits.maxEntry && !env.fault(t) && Reaches(env, m, t + 1, d, Parent(p)))
  }

  lemma TarDirectoryBegins(env: Env, job: Job, s: Tar, e: Entry)
    requires Sound(env, job, s.w.nodes) && Contained(job, e) && At(env, job.dst) !in s.w.nodes
    ensures var d, p, r := At(env, job.dst), At(env, PathOf(job, e)), TarDirectory(env, job, s, e);
      && d <= p && (d in r.w.nodes <==> Reaches(env, s.w.nodes, s.w.tick, d, p))
      && (d in r.w.nodes ==> IsDir(r.w.nodes, d)) && (s.ok && r.ok ==> d in r.w.nodes)
  {
    hide Walk, PlaceOf, Join, IsPathContained;
    var d, p := At(env, job.dst), At(env, PathOf(job, e));
    EntryPlace(env, job, e);
    ClearBelow(s.w.nodes, d, p);
    MkdirReaches(env, s.w, d, p, DIR_MODE);
    MkdirAllEffect(env, s.w, p, DIR_MODE);
    var made := MkdirAll(env, s.w, p, DIR_MODE);
    if made.ok {
      Ancestors(made.w.nodes, d, p);
    }
  }

  lemma ParentBegins(env: Env, w: World, d: Path, up: Path)
    requires WF(w.nodes) && NoLinks(w.nodes, d) && AllReal(up) && d <= up && d !in w.nodes
    ensures var m2 := TarParent(env, w, up).w.nodes;
      && (d in m2 <==> !env.fault(w.tick) && Reaches(env, w.nodes, w.tick + 1, d, up))
      && (d in m2 ==> IsDir(m2, d))
  {
    hide Walk, NoneFails, Settles;
    var m := w.nodes;
    ClearBelow(m, d, up);
    LocateClear(env, m, up, true);
    AbsentBelow(m, d);
    MkdirReaches(env, Tick(w), d, up, DIR_MODE);
    MkdirAllEffect(env, Tick(w), up, DIR_MODE);
    if Stat(env, w, up) != NotExist && !env.fault(w.tick) && IsDir(m, Stem(m, d)) {
      var q :| q in m && q <= up && m[q].File?;
      StemBlocks(m, d, up, q);
    }
  }

  /** No file is on the way to a place whose stem is a directory. */
  lemma StemBlocks(m: Tree, d: Path, up: Path, q: Path)
    requires WF(m) && d !in m && d <= up && q <= up && q in m && IsDir(m, Stem(m, d))
    ensures m[q].Dir?
  {
    var a := Stem(m, d);
    StemIsLast(m, d);
    if |q| > |a| {
      assert q[..|a| + 1] == up[..|a| + 1] == d[..|a| + 1];
      Ancestors(m, d[..|a| + 1], q);
    } else {
      assert q == up[..|q|] == a[..|q|];
      Ancestors(m, q, a);
    }
  }

  lemma TarFileBegins(env: Env, job: Job, s: Tar, e: Entry)
    requires Sound(env, job, s.w.nodes) && Contained(job, e) && At(env, job.dst) !in s.w.nodes
    ensures var d, p, r := At(env, job.dst), At(env, PathOf(job, e)), TarFile(env, job, s, e);
      && p != [] && d <= Parent(p)
      && (d in r.w.nodes <==> !env.fault(s.w.tick) && Reaches(env, s.w.nodes, s.w.tick + 1, d, Parent(p)))
      && (d in r.w.nodes ==> IsDir(r.w.nodes, d)) && (s.ok && r.ok ==> d in r.w.nodes)
  {
    hide Walk, PlaceOf, Join, IsPathContained, WriteEntry, Chtimes, TarParent;
    var m, d, p := s.w.nodes, At(env, job.dst), At(env, PathOf(job, e));
    EntryPlace(env, job, e);
    ParentBegins(env, s.w, d, Parent(p));
    ClearBelow(m, d, Parent(p));
    TarParentEffect(env, s.w, Parent(p));
    var dir := TarParent(env, s.w, Parent(p));
    MadeBelow(m, dir.w.nodes, d, Parent(p), env.masked(DIR_MODE));
    ClearBelow(dir.w.nodes, d, p);
    FileNeedsDst(env, dir.w, d, p, e, s.total, job.limits.maxTotal);
    ChtimesNodes(env, WriteEntry(env, dir.w, p, e, s.total, job.limits.maxTotal).w, p, TimesOf(job, e));
  }

  /** Writing a file below d does not make d, and needs it. */
  lemma FileNeedsDst(env: Env, w: World, d: Path, p: Path, e: Entry, total: int, max: int)
    requires WF(w.nodes) && NoLinks(w.nodes, d) && d < p && AllReal(p) && Clear(w.nodes, p)
    ensures var r := WriteEntry(env, w, p, e, total, max);
      Get(r.w.nodes, d) == Get(w.nodes, d) && (r.ok ==> d in w.nodes)
  {
    hide Walk;
    WriteEntryNodes(env, w, p, e, total, max);
    if IsDir(w.nodes, Parent(p)) {
      ParentPrefix(d, p);
      Ancestors(w.nodes, d, Parent(p));
    }
  }

  lemma {:induction false} TarLoopBegins(env: Env, job: Job, s: Tar, entries: seq<Entry>)
    requires Sound(env, job, s.w.nodes) && s.ok && s.files == 0 && At(env, job.dst) !in s.w.nodes
    ensures var d, m2 := At(env, job.dst), TarLoop(env, job, s, entries).w.nodes;
      (d in m2 <==> Begins(env, job, s.w.nodes, s.w.tick, entries)) && (d in m2 ==> IsDir(m2, d))
    decreases |entries|
  {
    hide Walk, PlaceOf, Join, IsPathContained, TarFile, TarDirectory, Reaches;
    if entries != [] {
      var e := entries[0];
      var s1 := TarEntry(env, job, s, e);
      if e.kind.Extended? {
        TarLoopBegins(env, job, s1, entries[1..]);
      } else {
        if Contained(job, e) {
          TarDirectoryBegins(env, job, s.(headers := s.headers + 1, files := 1), e);
          TarFileBegins(env, job, s.(headers := s.headers + 1, files := 1), e);
        }
        TarEntryFrame(env, job, s, e);
        TarLoopFrame(env, job, s1, entries[1..]);
      }
    }
  }

  lemma UntarBegins(env: Env, job: Job, w: World, archive: Archive)
    requires Sound(env, job, w.nodes) && At(env, job.dst) !in w.nodes
    ensures var d, m2 := At(env, job.dst), Untar(env, job, w, archive).w.nodes;
      (d in m2 <==> Begins(env, job, w.nodes, w.tick, archive.entries)) && (d in m2 ==> IsDir(m2, d))
  {
    hide Walk, PlaceOf, Join, IsPathContained, TarEntry, Begins;
    var d := At(env, job.dst);
    TarLoopBegins(env, job, StartTar(w), archive.entries);
    TarLoopFrame(env, job, StartTar(w), archive.entries);
    TarLoopSeen(env, job, StartTar(w), archive.entries);
    var s := TarLoop(env, job, StartTar(w), archive.entries);
    var keys := env.order(s.seen.Keys);
    TarDirsFrame(env, job, s.w, s.seen, keys);
    if d !in s.w.nodes {
      forall k | k in s.seen
        ensures false
      {
        Ancestors(s.w.nodes, d, At(env, k));
      }
      NoneSeen(env, job, s.w, s.seen, keys);
    }
  }

  lemma {:induction false} NoneSeen(env: Env, job: Job, w: World, seen: map<string, Entry>, keys: seq<string>)
    requires forall k :: k !in seen
    ensures TarDirs(env, job, w, seen, keys) == Outcome(w, true)
    decreases |keys|
  {
    if keys != [] {
      NoneSeen(env, job, w, seen, keys[1..]);
    }
  }

  // ------------------------------------------------------------------ zip

  /** The count is within the limit, the first entry is admitted, and making its directory, or the
      directory of its file, gets as far as dst. */
  ghost predicate ZipBegins(env: Env, job: Job, m: Tree, t: nat, entries: seq<Member>)
    requires GoodJob(env, job)
  {
    && 0 < |entries| <= job.limits.files
    && var e := entries[0];
    && e.size <= job.limits.maxEntry && Contained(job, e)
    && (EntryPlace(env, job, e);
        var d, p := At(env, job.dst), At(env, PathOf(job, e));
        Reaches(env, m, t, d, if e.kind.Directory? then p else Parent(p)))
  }

  lemma ZipEntryBegins(env: Env, job: Job, s: Zip, e: Member)
    requires Sound(env, job, s.w.nodes) && Contained(job, e) && At(env, job.dst) !in s.w.nodes
    requires s.ok && e.size <= job.limits.maxEntry
    ensures var d, p, r := At(env, job.dst), At(env, PathOf(job, e)), ZipEntry(env, job, s, e);
      && p != [] && d <= p && d <= Parent(p)
      && (d in r.w.nodes <==> Reaches(env, s.w.nodes, s.w.tick, d, if e.kind.Directory? then p else Parent(p)))
      && (d in r.w.nodes ==> IsDir(r.w.nodes, d)) && (r.ok ==> d in r.w.nodes)
  {
    hide Walk, PlaceOf, Join, IsPathContained, WriteEntry, Reaches;
    var m, d, p := s.w.nodes, At(env, job.dst), At(env, PathOf(job, e));
    EntryPlace(env, job, e);
    var dir := if e.kind.Directory? then p else Parent(p);
    ClearBelow(m, d, dir);
    MkdirReaches(env, s.w, d, dir, job.umask);
    MkdirAllEffect(env, s.w, dir, job.umask);
    var made := MkdirAll(env, s.w, dir, job.umask);
    if made.ok {
      Ancestors(made.w.nodes, d, dir);
      if !e.kind.Directory? {
        MadeBelow(m, made.w.nodes, d, dir, env.masked(job.umask));
        ClearBelow(made.w.nodes, d, p);
        FileNeedsDst(env, Touchless(env, made.w).w, d, p, e, s.total, job.limits.maxTotal);
      }
    }
  }

  lemma UnzipBegins(env: Env, job: Job, w: World, entries: seq<Member>)
    requires Sound(env, job, w.nodes) && At(env, job.dst) !in w.nodes
    ensures var d, m2 := At(env, job.dst), Unzip(env, job, w, entries).w.nodes;
      (d in m2 <==> ZipBegins(env, job, w.nodes, w.tick, entries)) && (d in m2 ==> IsDir(m2, d))
  {
    hide Walk, PlaceOf, Join, IsPathContained, Reaches;
    if 0 < |entries| <= job.limits.files {
      var s, e := Zip(w, 0, 0, true), entries[0];
      var s1 := ZipEntry(env, job, s, e);
      if e.size <= job.limits.maxEntry && Contained(job, e) {
        ZipEntryBegins(env, job, s, e);
      }
      hide ZipEntry;
      ZipEntryFrame(env, job, s, e);
      ZipLoopFrame(env, job, s1, entries[1..]);
    }
  }

  // ------------------------------------------------------------------ what stays of a destination that was absent

  /** A failed run, given what the extraction left in w2. */
  lemma Remains(env: Env, job: Job, m: Tree, w2: World, created: bool)
    requires Sound(env, job, m) && Keeps(m, w2.nodes, At(env, job.dst)) && Straight(env, w2.nodes, job.dst)
    requires At(env, job.dst) !in m
    ensures NothingAt(RemoveOnError(env, w2, job.dst, created, false).nodes, At(env, job.dst)) <==>
      !(At(env, job.dst) in w2.nodes && (!created || !Removes(env, w2.nodes, job.dst)))
  {
    hide PlaceOf, RemoveText, Removes, Straight;
    var d, m2 := At(env, job.dst), w2.nodes;
    RemovesOnly(env, m2, job.dst);
    var m3 := RemoveOnError(env, w2, job.dst, created, false).nodes;
    if d !in m2 {
      AbsentBelow(m2, d);
      assert forall p :: p in m3 ==> p in m2;
    } else if created && Removes(env, m2, job.dst) {
      assert m3 == Without(m2, d);
    } else {
      assert d in m3 && d <= d;
    }
  }

  /** A failed tar extraction leaves something of a destination that was absent exactly when the
      first entry got as far as making it, and either Stat did not say that it does not exist, or
      its text does not lead to it when it is removed. */
  lemma RollbackIff(env: Env, job: Job, w: World, archive: Archive)
    requires Sound(env, job, w.nodes) && Straight(env, w.nodes, job.dst) && At(env, job.dst) !in w.nodes
    requires !TarExpand(env, job, w, archive).ok
    ensures NothingAt(TarExpand(env, job, w, archive).w.nodes, At(env, job.dst)) <==>
      !(&& !env.fault(w.tick) && Begins(env, job, w.nodes, w.tick + 2, archive.entries)
        && (StatText(env, Tick(w), job.dst) != NotExist
            || !Removes(env, Untar(env, job, Tick(Tick(w)), archive).w.nodes, job.dst)))
  {
    hide Walk, PlaceOf, Untar, Begins, StatText, Straight, Removes, NothingAt, LinksDown, RemoveOnError;
    var d, w2 := At(env, job.dst), Tick(Tick(w));
    var s := Untar(env, job, w2, archive);
    UntarBegins(env, job, w2, archive);
    UntarFrame(env, job, w2, archive);
    UntarDown(env, job, w2, archive);
    StraightKept(env, w.nodes, s.w.nodes, job.dst);
    Remains(env, job, w.nodes, s.w, StatText(env, Tick(w), job.dst) == NotExist);
    AbsentBelow(w.nodes, d);
  }

  /** The same for zip. */
  lemma ZipRollbackIff(env: Env, job: Job, w: World, entries: seq<Member>)
    requires Sound(env, job, w.nodes) && Straight(env, w.nodes, job.dst) && At(env, job.dst) !in w.nodes
    requires !ZipExpand(env, job, w, entries).ok
    ensures NothingAt(ZipExpand(env, job, w, entries).w.nodes, At(env, job.dst)) <==>
      !(&& !env.fault(w.tick) && ZipBegins(env, job, w.nodes, w.tick + 2, entries)
        && (StatText(env, Tick(w), job.dst) != NotExist
            || !Removes(env, Unzip(env, job, Tick(Tick(w)), entries).w.nodes, job.dst)))
  {
    hide Walk, PlaceOf, Unzip, ZipBegins, StatText, Straight, Removes, NothingAt, LinksDown, RemoveOnError;
    var d, w2 := At(env, job.dst), Tick(Tick(w));
    var s := Unzip(env, job, w2, entries);
    UnzipBegins(env, job, w2, entries);
    UnzipFrame(env, job, w2, entries);
    UnzipDown(env, job, w2, entries);
    StraightKept(env, w.nodes, s.w.nodes, job.dst);
    Remains(env, job, w.nodes, s.w, StatText(env, Tick(w), job.dst) == NotExist);
    AbsentBelow(w.nodes, d);
  }

  /** RemoveAll would remove dst once it is there, as far as the start tells. */
  ghost predicate Undoes(env: Env, job: Job, m: Tree) {
    NamesPlace(job.dst) && At(env, job.dst) != [] && WillLead(env, m, job.dst)
  }

  /** With a destination text that does not dip below its place, all of that is about the start:
      something stays exactly when the first entry got as far as making dst, and Stat did not say
      that dst does not exist or the text will not lead to it. */
  lemma RollbackFromStart(env: Env, job: Job, w: World, archive: Archive)
    requires Sound(env, job, w.nodes) && Straight(env, w.nodes, job.dst) && At(env, job.dst) !in w.nodes
    requires !Dips(env, job.dst) && !TarExpand(env, job, w, archive).ok
    ensures NothingAt(TarExpand(env, job, w, archive).w.nodes, At(env, job.dst)) <==>
      !(&& !env.fault(w.tick) && Begins(env, job, w.nodes, w.tick + 2, archive.entries)
        && (StatText(env, Tick(w), job.dst) != NotExist || !Undoes(env, job, w.nodes)))
  {
    hide Walk, PlaceOf, Untar, Begins, StatText, Straight, Removes, Dips, WillLead, NothingAt, Untrailed, Step;
    var d, w2 := At(env, job.dst), Tick(Tick(w));
    var m2 := Untar(env, job, w2, archive).w.nodes;
    RollbackIff(env, job, w, archive);
    UntarBegins(env, job, w2, archive);
    UntarFrame(env, job, w2, archive);
    if Begins(env, job, w.nodes, w.tick + 2, archive.entries) {
      RemovesIff(env, w.nodes, m2, job.dst);
    }
  }

  lemma ZipRollbackFromStart(env: Env, job: Job, w: World, entries: seq<Member>)
    requires Sound(env, job, w.nodes) && Straight(env, w.nodes, job.dst) && At(env, job.dst) !in w.nodes
    requires !Dips(env, job.dst) && !ZipExpand(env, job, w, entries).ok
    ensures NothingAt(ZipExpand(env, job, w, entries).w.nodes, At(env, job.dst)) <==>
      !(&& !env.fault(w.tick) && ZipBegins(env, job, w.nodes, w.tick + 2, entries)
        && (StatText(env, Tick(w), job.dst) != NotExist || !Undoes(env, job, w.nodes)))
  {
    hide Walk, PlaceOf, Unzip, ZipBegins, StatText, Straight, Removes, Dips, WillLead, NothingAt, Untrailed, Step;
    var d, w2 := At(env, job.dst), Tick(Tick(w));
    var m2 := Unzip(env, job, w2, entries).w.nodes;
    ZipRollbackIff(env, job, w, entries);
    UnzipBegins(env, job, w2, entries);
    UnzipFrame(env, job, w2, entries);
    if ZipBegins(env, job, w.nodes, w.tick + 2, entries) {
      RemovesIff(env, w.nodes, m2, job.dst);
    }
  }
}
