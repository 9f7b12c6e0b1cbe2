/**
  What an extraction can change, on success and at every point where it can fail.
 */
module ExtractFrame {
  import opened Paths
  import opened Os
  import opened Frames
  import opened Budget
  import opened Archives

  /** The destination contains no symlink and none is on the way to it. */
  ghost predicate Sound(env: Env, job: Job, m: Tree) {
    GoodJob(env, job) && WF(m) && NoLinks(m, At(env, job.dst))
  }

  /** Changes stay at or below d, and every file that is not in `files` stays as it is. */
  ghost predicate Frame(m: Tree, m2: Tree, d: Path, files: set<Path>) {
    && Keeps(m, m2, d)
    && (forall p :: p in m && m[p].File? && p !in files ==> p in m2 && m2[p] == m[p])
  }

  lemma FrameTrans(m: Tree, m1: Tree, m2: Tree, d: Path, f1: set<Path>, f2: set<Path>)
    requires Frame(m, m1, d, f1) && Frame(m1, m2, d, f2)
    ensures Frame(m, m2, d, f1 + f2)
  {
    KeepsTrans(m, m1, m2, d);
  }

  lemma FrameMore(m: Tree, m2: Tree, d: Path, f1: set<Path>, f2: set<Path>)
    requires Frame(m, m2, d, f1) && f1 <= f2
    ensures Frame(m, m2, d, f2)
  {
  }

  // ------------------------------------------------------------------ the calls of one entry

  /** With no symlink around d, there is none on the way to a place below it. */
  lemma ClearBelow(m: Tree, d: Path, p: Path)
    requires NoLinks(m, d) && d <= p
    ensures Clear(m, p)
  {
    forall q | q in m && q <= p
      ensures !m[q].Link?
    {
      if |q| <= |d| {
        assert q == p[..|q|] == d[..|q|];
      } else {
        assert d == p[..|d|] == q[..|d|];
      }
    }
  }

  lemma MadeBelow(m: Tree, m1: Tree, d: Path, p: Path, perm: nat)
    requires WF(m1) && NoLinks(m, d) && d <= p && MadeDirs(m, m1, p, perm)
    ensures Frame(m, m1, d, {})
  {
    forall q | q in m1 && q !in m
      ensures d <= q || q < d
    {
      if |q| < |d| {
        assert q == p[..|q|] == d[..|q|];
      } else {
        assert d == p[..|d|] == q[..|d|];
      }
    }
  }

  lemma FileBelow(m: Tree, d: Path, p: Path, f: Node)
    requires WF(m) && NoLinks(m, d) && d < p && AllReal(p) && f.File?
    requires IsDir(m, Parent(p)) && !IsDir(m, p)
    ensures Frame(m, m[p := f], d, {p})
  {
    ClearBelow(m, d, p);
    PutWF(m, p, f);
  }

  lemma WriteEntryNodes(env: Env, w: World, at: Path, e: Entry, total: int, max: int)
    requires WF(w.nodes) && Clear(w.nodes, at) && AllReal(at) && at != []
    ensures var r, m := WriteEntry(env, w, at, e, total, max), w.nodes;
      && (r.w.nodes == m
          || (&& IsDir(m, Parent(at)) && !IsDir(m, at)
              && at in r.w.nodes && r.w.nodes[at].File? && r.w.nodes == m[at := r.w.nodes[at]]))
      && (r.ok ==>
            && IsDir(m, Parent(at)) && !IsDir(m, at)
            && at in r.w.nodes && r.w.nodes[at].File? && r.w.nodes == m[at := r.w.nodes[at]]
            && r.w.nodes[at].data == Flat(e.body.pieces) && !e.body.broken)
  {
    hide Walk;
    OpenFileEffect(env, w, at, e.mode);
    var o := OpenFile(env, w, at, e.mode);
    if o.file.Some? {
      FeedNodes(env, o.w, at, e.body.pieces, total, max);
      var r := Feed(env, o.w, at, e.body.pieces, total, max);
      assert [] + Flat(e.body.pieces) == Flat(e.body.pieces);
      assert w.nodes[at := o.w.nodes[at]][at := r.w.nodes[at]] == w.nodes[at := r.w.nodes[at]];
    }
  }

  /** After the parent has been seen to, it is a directory unless something is in the way. */
  lemma TarParentEffect(env: Env, w: World, up: Path)
    requires WF(w.nodes) && Clear(w.nodes, up) && AllReal(up)
    ensures var r, m := TarParent(env, w, up), w.nodes;
      && WF(r.w.nodes) && MadeDirs(m, r.w.nodes, up, env.masked(DIR_MODE))
      && (NoFault(env) ==> (r.ok && IsDir(r.w.nodes, up) <==> DirsOnWay(m, up)))
  {
    hide Walk;
    var m := w.nodes;
    LocateClear(env, m, up, true);
    MkdirAllEffect(env, Tick(w), up, DIR_MODE);
    if IsDir(m, up) {
      forall q | q in m && q <= up
        ensures m[q].Dir?
      {
        Ancestors(m, q, up);
      }
    }
    assert up <= up;
  }

  // ------------------------------------------------------------------ the loops

  /** The places the entries name as files. */
  ghost function FilesOf(env: Env, job: Job, entries: seq<Entry>): set<Path> {
    if entries == [] then {} else FileOf(env, job, entries[0]) + FilesOf(env, job, entries[1..])
  }

  ghost function FileOf(env: Env, job: Job, e: Entry): set<Path> {
    if e.kind.Regular? then {At(env, PathOf(job, e))} else {}
  }

  lemma FileSteps(env: Env, job: Job, m: Tree, m1: Tree, m2: Tree, e: Entry, perm: nat)
    requires Sound(env, job, m) && Contained(job, e)
    requires var p := At(env, PathOf(job, e));
      && p != [] && WF(m1) && MadeDirs(m, m1, Parent(p), perm)
      && (m2 == m1
          || (IsDir(m1, Parent(p)) && !IsDir(m1, p) && p in m2 && m2[p].File? && m2 == m1[p := m2[p]]))
    ensures Frame(m, m2, At(env, job.dst), {At(env, PathOf(job, e))})
  {
    var p, d := At(env, PathOf(job, e)), At(env, job.dst);
    EntryPlace(env, job, e);
    MadeBelow(m, m1, d, Parent(p), perm);
    if m2 != m1 {
      FileBelow(m1, d, p, m2[p]);
      FrameTrans(m, m1, m2, d, {}, {p});
      FrameMore(m, m2, d, {} + {p}, {p});
    } else {
      FrameMore(m, m1, d, {}, {p});
    }
  }

  lemma TarFileFrame(env: Env, job: Job, s: Tar, e: Entry)
    requires Sound(env, job, s.w.nodes) && Contained(job, e) && s.ok
    ensures var r := TarFile(env, job, s, e);
      Frame(s.w.nodes, r.w.nodes, At(env, job.dst), {At(env, PathOf(job, e))})
  {
    hide Walk;
    var m := s.w.nodes;
    var p, d := At(env, PathOf(job, e)), At(env, job.dst);
    EntryPlace(env, job, e);
    ClearBelow(m, d, Parent(p));
    TarParentEffect(env, s.w, Parent(p));
    var dir := TarParent(env, s.w, Parent(p));
    MadeBelow(m, dir.w.nodes, d, Parent(p), env.masked(DIR_MODE));
    if dir.ok {
      ClearBelow(dir.w.nodes, d, p);
      WriteEntryNodes(env, dir.w, p, e, s.total, job.limits.maxTotal);
      var f := WriteEntry(env, dir.w, p, e, s.total, job.limits.maxTotal);
      FileSteps(env, job, m, dir.w.nodes, f.w.nodes, e, env.masked(DIR_MODE));
    } else {
      FileSteps(env, job, m, dir.w.nodes, dir.w.nodes, e, env.masked(DIR_MODE));
    }
  }

  lemma TarEntryFrame(env: Env, job: Job, s: Tar, e: Entry)
    requires Sound(env, job, s.w.nodes) && s.ok
    ensures var r := TarEntry(env, job, s, e);
      Frame(s.w.nodes, r.w.nodes, At(env, job.dst), FileOf(env, job, e))
  {
    hide Walk;
    var m, d := s.w.nodes, At(env, job.dst);
    var s1 := s.(headers := s.headers + 1, files := s.files + 1);
    if !e.kind.Extended? && s1.files <= job.limits.files && Contained(job, e) {
      if e.kind.Directory? {
        var p := At(env, PathOf(job, e));
        EntryPlace(env, job, e);
        ClearBelow(m, d, p);
        MkdirAllEffect(env, s.w, p, DIR_MODE);
        MadeBelow(m, MkdirAll(env, s.w, p, DIR_MODE).w.nodes, d, p, env.masked(DIR_MODE));
      } else if e.size <= job.limits.maxEntry {
        TarFileFrame(env, job, s1, e);
      }
    }
  }

  lemma {:induction false} TarLoopFrame(env: Env, job: Job, s: Tar, entries: seq<Entry>)
    requires Sound(env, job, s.w.nodes)
    ensures var r := TarLoop(env, job, s, entries);
      Frame(s.w.nodes, r.w.nodes, At(env, job.dst), FilesOf(env, job, entries))
    decreases |entries|
  {
    if entries != [] && s.ok {
      TarEntryFrame(env, job, s, entries[0]);
      var s1 := TarEntry(env, job, s, entries[0]);
      TarLoopFrame(env, job, s1, entries[1..]);
      FrameTrans(s.w.nodes, s1.w.nodes, TarLoop(env, job, s1, entries[1..]).w.nodes, At(env, job.dst),
        FileOf(env, job, entries[0]), FilesOf(env, job, entries[1..]));
    }
  }

  /** The deferred pass changes the modes of directories, or stops before it would not. */
  lemma {:induction false} TarDirsFrame(env: Env, job: Job, w: World, seen: map<string, Entry>, keys: seq<string>)
    requires Sound(env, job, w.nodes) && SeenDirs(env, job, w.nodes, seen)
    ensures Frame(w.nodes, TarDirs(env, job, w, seen, keys).w.nodes, At(env, job.dst), {})
    decreases |keys|
  {
    hide Walk, PlaceOf, Join, IsPathContained;
    var d := At(env, job.dst);
    if keys != [] {
      if keys[0] !in seen {
        TarDirsFrame(env, job, w, seen, keys[1..]);
      } else {
        var e, p := seen[keys[0]], At(env, keys[0]);
        ClearBelow(w.nodes, d, p);
        ChmodEffect(env, w, p, e.mode);
        var c := Chmod(env, w, p, e.mode);
        if c.ok {
          ChmodFrame(w.nodes, d, p, e.mode);
          SeenKept(env, job, w.nodes, c.w.nodes, seen);
          var t := Chtimes(env, c.w, p, TimesOf(job, e));
          if t.ok {
            TarDirsFrame(env, job, t.w, seen, keys[1..]);
            FrameTrans(w.nodes, t.w.nodes, TarDirs(env, job, t.w, seen, keys[1..]).w.nodes, d, {}, {});
          }
        }
      }
    }
  }

  lemma ChmodFrame(m: Tree, d: Path, p: Path, mode: nat)
    requires WF(m) && NoLinks(m, d) && d <= p && IsDir(m, p)
    ensures m[p := m[p].(perm := mode)] == m[p := Dir(mode)]
    ensures Frame(m, m[p := Dir(mode)], d, {})
  {
    DirKeepsWF(m, p, mode);
  }

  /** Every directory with a header is there. */
  ghost predicate SeenDirs(env: Env, job: Job, m: Tree, seen: map<string, Entry>) {
    forall k :: k in seen ==>
      && Contained(job, seen[k]) && k == PathOf(job, seen[k])
      && At(env, job.dst) < At(env, k) && AllReal(At(env, k))
      && IsDir(m, At(env, k))
  }

  lemma {:induction false} TarLoopSeen(env: Env, job: Job, s: Tar, entries: seq<Entry>)
    requires Sound(env, job, s.w.nodes) && SeenDirs(env, job, s.w.nodes, s.seen)
    ensures var r := TarLoop(env, job, s, entries); SeenDirs(env, job, r.w.nodes, r.seen)
    decreases |entries|
  {
    if entries != [] && s.ok {
      TarEntryFrame(env, job, s, entries[0]);
      TarEntrySeen(env, job, s, entries[0]);
      TarLoopSeen(env, job, TarEntry(env, job, s, entries[0]), entries[1..]);
    }
  }

  lemma SeenKept(env: Env, job: Job, m: Tree, m2: Tree, seen: map<string, Entry>)
    requires SeenDirs(env, job, m, seen) && Keeps(m, m2, At(env, job.dst))
    ensures SeenDirs(env, job, m2, seen)
  {
    hide PlaceOf, Join, IsPathContained;
  }

  /** The headers that are remembered are those of the directories that were made. */
  lemma TarEntryRemembers(env: Env, job: Job, s: Tar, e: Entry)
    ensures var r := TarEntry(env, job, s, e);
      r.seen == s.seen ||
        (&& r.seen == s.seen[PathOf(job, e) := e] && e.kind.Directory? && Contained(job, e)
         && r.w == MkdirAll(env, s.w, At(env, PathOf(job, e)), DIR_MODE).w
         && MkdirAll(env, s.w, At(env, PathOf(job, e)), DIR_MODE).ok)
  {
    hide Walk, PlaceOf, Join, IsPathContained, WriteEntry, TarParent;
  }

  lemma TarEntrySeen(env: Env, job: Job, s: Tar, e: Entry)
    requires Sound(env, job, s.w.nodes) && SeenDirs(env, job, s.w.nodes, s.seen)
    requires Keeps(s.w.nodes, TarEntry(env, job, s, e).w.nodes, At(env, job.dst))
    ensures var r := TarEntry(env, job, s, e); SeenDirs(env, job, r.w.nodes, r.seen)
  {
    hide Walk, PlaceOf, Join, IsPathContained, TarEntry;
    var r := TarEntry(env, job, s, e);
    TarEntryRemembers(env, job, s, e);
    SeenKept(env, job, s.w.nodes, r.w.nodes, s.seen);
    if r.seen != s.seen {
      var p := At(env, PathOf(job, e));
      EntryPlace(env, job, e);
      ClearBelow(s.w.nodes, At(env, job.dst), p);
      MkdirAllEffect(env, s.w, p, DIR_MODE);
    }
  }

  lemma UntarFrame(env: Env, job: Job, w: World, archive: Archive)
    requires Sound(env, job, w.nodes)
    ensures var r := Untar(env, job, w, archive);
      Frame(w.nodes, r.w.nodes, At(env, job.dst), FilesOf(env, job, archive.entries))
  {
    hide Walk, PlaceOf, Join, IsPathContained, TarDirs;
    TarLoopFrame(env, job, StartTar(w), archive.entries);
    TarLoopSeen(env, job, StartTar(w), archive.entries);
    var s := TarLoop(env, job, StartTar(w), archive.entries);
    if s.ok && !archive.broken && s.headers != 0 {
      TarDirsFrame(env, job, s.w, s.seen, env.order(s.seen.Keys));
      FrameTrans(w.nodes, s.w.nodes, TarDirs(env, job, s.w, s.seen, env.order(s.seen.Keys)).w.nodes,
        At(env, job.dst), FilesOf(env, job, archive.entries), {});
      assert FilesOf(env, job, archive.entries) + {} == FilesOf(env, job, archive.entries);
    }
  }

  lemma ZipFileFrame(env: Env, job: Job, s: Zip, e: Member)
    requires Sound(env, job, s.w.nodes) && Contained(job, e) && s.ok
    ensures var r := ZipFile(env, job, s, e);
      Frame(s.w.nodes, r.w.nodes, At(env, job.dst), {At(env, PathOf(job, e))})
  {
    hide Walk, PlaceOf, Join, IsPathContained;
    var m := s.w.nodes;
    var p, d := At(env, PathOf(job, e)), At(env, job.dst);
    EntryPlace(env, job, e);
    ClearBelow(m, d, Parent(p));
    MkdirAllEffect(env, s.w, Parent(p), job.umask);
    var dir := MkdirAll(env, s.w, Parent(p), job.umask);
    MadeBelow(m, dir.w.nodes, d, Parent(p), env.masked(job.umask));
    FileSteps(env, job, m, dir.w.nodes, dir.w.nodes, e, env.masked(job.umask));
    var src := Touchless(env, dir.w);
    if dir.ok && src.ok {
      ClearBelow(dir.w.nodes, d, p);
      WriteEntryNodes(env, src.w, p, e, s.total, job.limits.maxTotal);
      var f := WriteEntry(env, src.w, p, e, s.total, job.limits.maxTotal);
      FileSteps(env, job, m, dir.w.nodes, f.w.nodes, e, env.masked(job.umask));
    }
  }

  lemma ZipEntryFrame(env: Env, job: Job, s: Zip, e: Member)
    requires Sound(env, job, s.w.nodes) && s.ok
    ensures var r := ZipEntry(env, job, s, e);
      Frame(s.w.nodes, r.w.nodes, At(env, job.dst), FileOf(env, job, e))
  {
    hide Walk, PlaceOf, Join, IsPathContained;
    var m, d := s.w.nodes, At(env, job.dst);
    if e.size <= job.limits.maxEntry && Contained(job, e) {
      if e.kind.Directory? {
        var p := At(env, PathOf(job, e));
        EntryPlace(env, job, e);
        ClearBelow(m, d, p);
        MkdirAllEffect(env, s.w, p, job.umask);
        MadeBelow(m, MkdirAll(env, s.w, p, job.umask).w.nodes, d, p, env.masked(job.umask));
      } else {
        ZipFileFrame(env, job, s, e);
      }
    }
  }

  lemma {:induction false} ZipLoopFrame(env: Env, job: Job, s: Zip, entries: seq<Member>)
    requires Sound(env, job, s.w.nodes)
    ensures var r := ZipLoop(env, job, s, entries);
      Frame(s.w.nodes, r.w.nodes, At(env, job.dst), FilesOf(env, job, entries))
    decreases |entries|
  {
    if entries != [] && s.ok {
      ZipEntryFrame(env, job, s, entries[0]);
      var s1 := ZipEntry(env, job, s, entries[0]);
      ZipLoopFrame(env, job, s1, entries[1..]);
      FrameTrans(s.w.nodes, s1.w.nodes, ZipLoop(env, job, s1, entries[1..]).w.nodes, At(env, job.dst),
        FileOf(env, job, entries[0]), FilesOf(env, job, entries[1..]));
    }
  }

  lemma UnzipFrame(env: Env, job: Job, w: World, entries: seq<Member>)
    requires Sound(env, job, w.nodes)
    ensures var r := Unzip(env, job, w, entries);
      Frame(w.nodes, r.w.nodes, At(env, job.dst), FilesOf(env, job, entries))
  {
    hide Walk, PlaceOf, Join, IsPathContained;
    ZipLoopFrame(env, job, Zip(w, 0, 0, true), entries);
  }
}
