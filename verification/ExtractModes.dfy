/**
  Modes and times after an extraction: a file that was there keeps its mode when it is
  overwritten, a new one has that of its first entry under the umask; its times are those of its
  last entry, whatever was extracted later.
 */
module ExtractModes {
  import opened Paths
  import opened Os
  import opened Budget
  import opened Archives
  import opened ExtractFrame
  import opened Deferred

  predicate IsFileFor(env: Env, job: Job, e: Entry, p: Path) {
    e.kind.Regular? && At(env, PathOf(job, e)) == p
  }

  /** The first and the last file entry for the place p. */
  function FirstFile(env: Env, job: Job, entries: seq<Entry>, p: Path): Option<Entry> {
    if entries == [] then None
    else if IsFileFor(env, job, entries[0], p) then Some(entries[0])
    else FirstFile(env, job, entries[1..], p)
  }

  function LastFile(env: Env, job: Job, entries: seq<Entry>, p: Path): Option<Entry> {
    if entries == [] then None
    else
      var later := LastFile(env, job, entries[1..], p);
      if later.Some? then later else if IsFileFor(env, job, entries[0], p) then Some(entries[0]) else None
  }

  // ------------------------------------------------------------------ what one write does to modes and times

  lemma {:induction false} FeedKeeps(env: Env, w: World, q: Path, pieces: seq<Bytes>, counter: int, max: int, x: Path)
    requires q != [] && q in w.nodes && w.nodes[q].File?
    ensures var r := Feed(env, w, q, pieces, counter, max);
      x != q ==> LookTimes(r.w.times, x) == LookTimes(w.times, x)
    decreases |pieces|
  {
    if pieces != [] {
      if pieces[0] == [] {
        FeedKeeps(env, w, q, pieces[1..], counter, max, x);
      } else if Wrap(counter + |pieces[0]|) <= max {
        WriteEffect(env, w, q, pieces[0]);
        var r := Write(env, w, q, pieces[0]);
        if r.ok {
          FeedKeeps(env, r.w, q, pieces[1..], Wrap(counter + |pieces[0]|), max, x);
        }
      }
    }
  }

  /** A file keeps its mode when it is overwritten; writing p changes the times of p, and of its
      directory if p is new, only. */
  lemma WriteEntryKeeps(env: Env, w: World, p: Path, e: Entry, total: int, max: int, x: Path)
    requires WF(w.nodes) && Clear(w.nodes, p) && AllReal(p) && p != []
    ensures var r, m := WriteEntry(env, w, p, e, total, max), w.nodes;
      && (r.ok ==> p in r.w.nodes && r.w.nodes[p].File?
                   && r.w.nodes[p].perm == if p in m && m[p].File? then m[p].perm else env.masked(e.mode))
      && (x != p && x != Parent(p) ==> LookTimes(r.w.times, x) == LookTimes(w.times, x))
  {
    hide Walk, Feed;
    OpenFileEffect(env, w, p, e.mode);
    var o := OpenFile(env, w, p, e.mode);
    if o.file.Some? {
      FeedNodes(env, o.w, p, e.body.pieces, total, max);
      FeedKeeps(env, o.w, p, e.body.pieces, total, max, x);
    }
    OpenTimes(env, w, p, e.mode, x);
  }

  lemma OpenTimes(env: Env, w: World, p: Path, mode: nat, x: Path)
    requires WF(w.nodes) && Clear(w.nodes, p) && AllReal(p) && p != []
    ensures x != p && x != Parent(p) ==> LookTimes(OpenFile(env, w, p, mode).w.times, x) == LookTimes(w.times, x)
  {
    LocateClear(env, w.nodes, p, true);
  }

  lemma CheckedTimes(env: Env, w: World, p: Path, perm: nat, x: Path)
    requires WF(w.nodes) && AllReal(p) && Clear(w.nodes, p) && x in w.nodes && !w.nodes[x].Dir?
    ensures LookTimes(MkdirChecked(env, w, p, perm).w.times, x) == LookTimes(w.times, x)
  {
    hide Walk;
    LocateClear(env, w.nodes, p, false);
  }

  /** Making directories changes the times of directories only. */
  lemma {:induction false} MkdirAllTimes(env: Env, w: World, p: Path, perm: nat, x: Path)
    requires WF(w.nodes) && AllReal(p) && Clear(w.nodes, p) && x in w.nodes && !w.nodes[x].Dir?
    ensures LookTimes(MkdirAll(env, w, p, perm).w.times, x) == LookTimes(w.times, x)
    decreases |p|
  {
    hide Walk, Locate, MkdirChecked;
    if p == [] {
      CheckedTimes(env, Tick(w), p, perm, x);
    } else {
      var up := Parent(p);
      ClearParent(w.nodes, p);
      MkdirAllTimes(env, Tick(w), up, perm, x);
      MkdirAllEffect(env, Tick(w), up, perm);
      CheckedTimes(env, MkdirAll(env, Tick(w), up, perm).w, p, perm, x);
    }
  }

  // ------------------------------------------------------------------ what one entry does

  /** m2 is m with new directories of one mode, and possibly a file at p. */
  ghost predicate Grown(m: Tree, m2: Tree, p: Path, isFile: bool, filePerm: nat, dirPerm: nat) {
    && (forall q {:trigger Get(m2, q)} :: q in m ==>
          Get(m2, q).Some? && (Get(m2, q) == Get(m, q)
            || (q == p && isFile && m[q].File? && m2[q].File? && m2[q].perm == m[q].perm)))
    && (forall q {:trigger Get(m2, q)} :: q !in m && Get(m2, q).Some? ==>
          if q == p && isFile then m2[q].File? && m2[q].perm == filePerm else m2[q] == Dir(dirPerm))
    && (isFile ==> p in m2 && m2[p].File?)
  }

  /** Directory part and file part of a file entry, common to both formats. */
  lemma FileGrown(env: Env, job: Job, m: Tree, w: World, e: Entry, perm: nat, total: int)
    requires Sound(env, job, m) && Contained(job, e) && WF(w.nodes)
    requires var p := At(env, PathOf(job, e)); p != [] && MadeDirs(m, w.nodes, Parent(p), env.masked(perm))
    requires WriteEntry(env, w, At(env, PathOf(job, e)), e, total, job.limits.maxTotal).ok
    ensures var p := At(env, PathOf(job, e));
      Grown(m, WriteEntry(env, w, p, e, total, job.limits.maxTotal).w.nodes, p, true, env.masked(e.mode),
        env.masked(perm))
  {
    hide Walk, PlaceOf, Join, IsPathContained, WriteEntry;
    var p, d := At(env, PathOf(job, e)), At(env, job.dst);
    EntryPlace(env, job, e);
    MadeBelow(m, w.nodes, d, Parent(p), env.masked(perm));
    ClearBelow(w.nodes, d, p);
    WriteEntryNodes(env, w, p, e, total, job.limits.maxTotal);
    WriteEntryKeeps(env, w, p, e, total, job.limits.maxTotal, p);
    assert p in w.nodes ==> p in m by {
      assert !(p <= Parent(p));
    }
  }

  ghost predicate Timely(env: Env, job: Job, w: World, w2: World, e: Entry, x: Path) {
    && (IsFileFor(env, job, e, x) ==> LookTimes(w2.times, x) == Some(TimesOf(job, e)))
    && (x in w.nodes && w.nodes[x].File? && !IsFileFor(env, job, e, x) ==>
          LookTimes(w2.times, x) == LookTimes(w.times, x))
  }

  lemma TarFileGrown(env: Env, job: Job, s: Tar, e: Entry, x: Path)
    requires Sound(env, job, s.w.nodes) && Contained(job, e) && e.kind.Regular? && s.ok
    ensures var r := TarFile(env, job, s, e);
      r.ok ==>
        && Grown(s.w.nodes, r.w.nodes, At(env, PathOf(job, e)), true, env.masked(e.mode), env.masked(DIR_MODE))
        && Timely(env, job, s.w, r.w, e, x)
  {
    hide Walk, PlaceOf, Join, IsPathContained, WriteEntry, Chtimes, TarParent, Grown;
    var m, p, d := s.w.nodes, At(env, PathOf(job, e)), At(env, job.dst);
    EntryPlace(env, job, e);
    ClearBelow(m, d, Parent(p));
    TarParentEffect(env, s.w, Parent(p));
    var dir := TarParent(env, s.w, Parent(p));
    MadeBelow(m, dir.w.nodes, d, Parent(p), env.masked(DIR_MODE));
    ClearBelow(dir.w.nodes, d, p);
    if TarFile(env, job, s, e).ok {
      FileGrown(env, job, m, dir.w, e, DIR_MODE, s.total);
      WriteEntryKeeps(env, dir.w, p, e, s.total, job.limits.maxTotal, x);
      WriteEntryNodes(env, dir.w, p, e, s.total, job.limits.maxTotal);
      var f := WriteEntry(env, dir.w, p, e, s.total, job.limits.maxTotal);
      FileBelow(dir.w.nodes, d, p, f.w.nodes[p]);
      ClearBelow(f.w.nodes, d, p);
      ChtimesEffect(env, f.w, p, TimesOf(job, e));
      if x in m && m[x].File? && x != p {
        ParentTimes(env, s.w, Parent(p), x);
        assert x != Parent(p);
      }
    }
  }

  lemma ParentTimes(env: Env, w: World, up: Path, x: Path)
    requires WF(w.nodes) && AllReal(up) && Clear(w.nodes, up) && x in w.nodes && !w.nodes[x].Dir?
    ensures LookTimes(TarParent(env, w, up).w.times, x) == LookTimes(w.times, x)
  {
    hide Walk;
    MkdirAllTimes(env, Tick(w), up, DIR_MODE, x);
  }

  lemma DirGrown(env: Env, job: Job, w: World, e: Entry, perm: nat)
    requires Sound(env, job, w.nodes) && Contained(job, e)
    ensures var p := At(env, PathOf(job, e));
      Grown(w.nodes, MkdirAll(env, w, p, perm).w.nodes, p, false, 0, env.masked(perm))
  {
    hide Walk, PlaceOf, Join, IsPathContained;
    var p := At(env, PathOf(job, e));
    EntryPlace(env, job, e);
    ClearBelow(w.nodes, At(env, job.dst), p);
    MkdirAllEffect(env, w, p, perm);
  }

  lemma TarEntryGrown(env: Env, job: Job, s: Tar, e: Entry, x: Path)
    requires Sound(env, job, s.w.nodes) && s.ok && TarEntry(env, job, s, e).ok
    ensures var r := TarEntry(env, job, s, e);
      && Grown(s.w.nodes, r.w.nodes, At(env, PathOf(job, e)), e.kind.Regular?, env.masked(e.mode), env.masked(DIR_MODE))
      && Timely(env, job, s.w, r.w, e, x)
  {
    hide Walk, PlaceOf, Join, IsPathContained, TarFile;
    if !e.kind.Extended? {
      var s1 := s.(headers := s.headers + 1, files := s.files + 1);
      if e.kind.Directory? {
        DirGrown(env, job, s.w, e, DIR_MODE);
        EntryPlace(env, job, e);
        ClearBelow(s.w.nodes, At(env, job.dst), At(env, PathOf(job, e)));
        if x in s.w.nodes && s.w.nodes[x].File? {
          MkdirAllTimes(env, s.w, At(env, PathOf(job, e)), DIR_MODE, x);
        }
      } else {
        TarFileGrown(env, job, s1, e, x);
      }
    }
  }

  // ------------------------------------------------------------------ over the whole list

  /** What the mode of the node at p is after an extraction. */
  ghost predicate ModeIs(env: Env, job: Job, m: Tree, m2: Tree, entries: seq<Entry>, p: Path, dirPerm: nat) {
    && (p in m ==> p in m2 && (m2[p] == m[p] || (m[p].File? && m2[p].File? && m2[p].perm == m[p].perm)))
    && (p !in m && p in m2 ==>
          if m2[p].File? then
            FirstFile(env, job, entries, p).Some?
              && m2[p].perm == env.masked(FirstFile(env, job, entries, p).value.mode)
          else m2[p] == Dir(dirPerm))
  }

  lemma ModeStep(env: Env, job: Job, m: Tree, m1: Tree, m2: Tree, entries: seq<Entry>, p: Path, dirPerm: nat)
    requires entries != []
    requires var e := entries[0];
      Grown(m, m1, At(env, PathOf(job, e)), e.kind.Regular?, env.masked(e.mode), dirPerm)
    requires ModeIs(env, job, m1, m2, entries[1..], p, dirPerm)
    ensures ModeIs(env, job, m, m2, entries, p, dirPerm)
  {
    hide PlaceOf, Join;
    assert Get(m1, p).Some? <==> p in m1;
  }

  /** A file that no later entry names keeps its times. */
  lemma {:induction false} TarLoopQuiet(env: Env, job: Job, s: Tar, entries: seq<Entry>, p: Path)
    requires Sound(env, job, s.w.nodes) && s.ok
    requires p in s.w.nodes && s.w.nodes[p].File? && LastFile(env, job, entries, p).None?
    ensures var r := TarLoop(env, job, s, entries);
      r.ok ==>
        LookTimes(r.w.times, p) == LookTimes(s.w.times, p) && p in r.w.nodes && r.w.nodes[p].File?
    decreases |entries|
  {
    hide Walk, PlaceOf, Join, IsPathContained, TarEntry;
    if entries != [] {
      var s1 := TarEntry(env, job, s, entries[0]);
      TarEntryFrame(env, job, s, entries[0]);
      if s1.ok {
        TarEntryGrown(env, job, s, entries[0], p);
        assert Get(s1.w.nodes, p).Some?;
        TarLoopQuiet(env, job, s1, entries[1..], p);
      }
    }
  }

  lemma {:induction false} TarLoopTimes(env: Env, job: Job, s: Tar, entries: seq<Entry>, p: Path)
    requires Sound(env, job, s.w.nodes) && s.ok && LastFile(env, job, entries, p).Some?
    ensures var r := TarLoop(env, job, s, entries);
      r.ok ==>
        && LookTimes(r.w.times, p) == Some(TimesOf(job, LastFile(env, job, entries, p).value))
        && p in r.w.nodes && r.w.nodes[p].File?
    decreases |entries|
  {
    hide Walk, PlaceOf, Join, IsPathContained, TarEntry;
    var e := entries[0];
    var s1 := TarEntry(env, job, s, e);
    TarEntryFrame(env, job, s, e);
    if s1.ok {
      if LastFile(env, job, entries[1..], p).Some? {
        TarLoopTimes(env, job, s1, entries[1..], p);
      } else {
        TarEntryGrown(env, job, s, e, p);
        TarLoopQuiet(env, job, s1, entries[1..], p);
      }
    }
  }

  lemma {:induction false} TarLoopModes(env: Env, job: Job, s: Tar, entries: seq<Entry>, p: Path)
    requires Sound(env, job, s.w.nodes) && s.ok && TarLoop(env, job, s, entries).ok
    ensures ModeIs(env, job, s.w.nodes, TarLoop(env, job, s, entries).w.nodes, entries, p, env.masked(DIR_MODE))
    decreases |entries|
  {
    hide Walk, PlaceOf, Join, IsPathContained, TarEntry, Grown;
    if entries != [] {
      hide ModeIs;
      var s1 := TarEntry(env, job, s, entries[0]);
      TarEntryFrame(env, job, s, entries[0]);
      if s1.ok {
        TarEntryGrown(env, job, s, entries[0], p);
        TarLoopModes(env, job, s1, entries[1..], p);
        ModeStep(env, job, s.w.nodes, s1.w.nodes, TarLoop(env, job, s1, entries[1..]).w.nodes, entries, p,
          env.masked(DIR_MODE));
      }
    }
  }

  /** After a successful untar, under any faults it survived: a file keeps the mode it had, or has
      that of its first entry under the umask; its times are those of its last entry; a directory
      without a header keeps its mode, or has 0755 under the umask. */
  lemma FilesAreFinal(env: Env, job: Job, w: World, archive: Archive, p: Path)
    requires Sound(env, job, w.nodes) && FairListing(env) && Untar(env, job, w, archive).ok
    ensures var r, entries := Untar(env, job, w, archive).w, archive.entries;
      && (LastFile(env, job, entries, p).Some? ==>
            var e := LastFile(env, job, entries, p).value;
            && p in r.nodes && r.nodes[p].File? && p in r.times
            && r.times[p].modified == (if e.modified.Some? then e.modified.value else job.now)
            && r.times[p].access == (if e.access.Some? then e.access.value else job.now))
      && ((forall k :: LastHeader(job, entries, k).Some? ==> At(env, k) != p) ==>
            ModeIs(env, job, w.nodes, r.nodes, entries, p, env.masked(493)))  // 0755
  {
    hide Walk, PlaceOf, Join, IsPathContained, TarDirs, TarEntry, ModeIs;
    var entries := archive.entries;
    var s := TarLoop(env, job, StartTar(w), entries);
    TarLoopFrame(env, job, StartTar(w), entries);
    TarLoopSeen(env, job, StartTar(w), entries);
    TarLoopHeaders(env, job, StartTar(w), entries);
    TarLoopModes(env, job, StartTar(w), entries, p);
    var keys := env.order(s.seen.Keys);
    TarDirsDress(env, job, s.w, s.seen, keys);
    if LastFile(env, job, entries, p).Some? {
      TarLoopTimes(env, job, StartTar(w), entries, p);
      assert Elsewhere(env, keys, p) by {
        forall i | 0 <= i < |keys|
          ensures At(env, keys[i]) != p
        {
          assert keys[i] in s.seen;
        }
      }
      assert Get(Untar(env, job, w, archive).w.nodes, p) == Get(s.w.nodes, p);
      var e := LastFile(env, job, entries, p).value;
      assert LookTimes(Untar(env, job, w, archive).w.times, p) == Some(TimesOf(job, e));
    }
    if forall k :: LastHeader(job, entries, k).Some? ==> At(env, k) != p {
      assert Elsewhere(env, keys, p) by {
        forall i | 0 <= i < |keys|
          ensures At(env, keys[i]) != p
        {
          assert keys[i] in s.seen;
          HeadersAreLast(job, map[], entries, keys[i]);
        }
      }
      SameMode(env, job, w.nodes, s.w.nodes, Untar(env, job, w, archive).w.nodes, entries, p, env.masked(DIR_MODE));
    }
  }

  lemma SameMode(env: Env, job: Job, m: Tree, m1: Tree, m2: Tree, entries: seq<Entry>, p: Path, dirPerm: nat)
    requires ModeIs(env, job, m, m1, entries, p, dirPerm) && Get(m1, p) == Get(m2, p)
    ensures ModeIs(env, job, m, m2, entries, p, dirPerm)
  {
    hide FirstFile;
  }

  // ------------------------------------------------------------------ zip

  lemma ZipFileGrown(env: Env, job: Job, s: Zip, e: Member)
    requires Sound(env, job, s.w.nodes) && Contained(job, e) && s.ok
    ensures ZipFile(env, job, s, e).ok ==>
      Grown(s.w.nodes, ZipFile(env, job, s, e).w.nodes, At(env, PathOf(job, e)), true, env.masked(e.mode),
        env.masked(job.umask))
  {
    hide Walk, PlaceOf, Join, IsPathContained, WriteEntry, Grown;
    var m, p := s.w.nodes, At(env, PathOf(job, e));
    EntryPlace(env, job, e);
    ClearBelow(m, At(env, job.dst), Parent(p));
    MkdirAllEffect(env, s.w, Parent(p), job.umask);
    var dir := MkdirAll(env, s.w, Parent(p), job.umask);
    if ZipFile(env, job, s, e).ok {
      FileGrown(env, job, m, Touchless(env, dir.w).w, e, job.umask, s.total);
    }
  }

  lemma {:induction false} ZipLoopModes(env: Env, job: Job, s: Zip, entries: seq<Member>, p: Path)
    requires Sound(env, job, s.w.nodes) && s.ok && ZipLoop(env, job, s, entries).ok
    ensures ModeIs(env, job, s.w.nodes, ZipLoop(env, job, s, entries).w.nodes, entries, p, env.masked(job.umask))
    decreases |entries|
  {
    hide Walk, PlaceOf, Join, IsPathContained, ZipFile, Grown;
    if entries != [] {
      hide ModeIs;
      var e := entries[0];
      var s1 := ZipEntry(env, job, s, e);
      ZipEntryFrame(env, job, s, e);
      if s1.ok {
        if e.kind.Directory? {
          DirGrown(env, job, s.w, e, job.umask);
          GrownDir(s.w.nodes, s1.w.nodes, At(env, PathOf(job, e)), env.masked(e.mode), env.masked(job.umask));
        } else {
          ZipFileGrown(env, job, s, e);
        }
        ZipLoopModes(env, job, s1, entries[1..], p);
        ModeStep(env, job, s.w.nodes, s1.w.nodes, ZipLoop(env, job, s1, entries[1..]).w.nodes, entries, p,
          env.masked(job.umask));
      }
    }
  }

  lemma GrownDir(m: Tree, m2: Tree, p: Path, filePerm: nat, dirPerm: nat)
    requires Grown(m, m2, p, false, 0, dirPerm)
    ensures Grown(m, m2, p, false, filePerm, dirPerm)
  {
  }

  /** After a successful unzip the modes follow the same rule, new directories having the mode the
      caller gave under the umask. */
  lemma UnzipModes(env: Env, job: Job, w: World, entries: seq<Member>, p: Path)
    requires Sound(env, job, w.nodes) && Unzip(env, job, w, entries).ok
    ensures ModeIs(env, job, w.nodes, Unzip(env, job, w, entries).w.nodes, entries, p, env.masked(job.umask))
  {
    hide Walk, PlaceOf, Join, IsPathContained, ZipEntry, ModeIs;
    ZipLoopModes(env, job, Zip(w, 0, 0, true), entries, p);
  }
}
