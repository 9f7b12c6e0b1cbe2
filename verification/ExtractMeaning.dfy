/**
  What a successful extraction leaves: the archive unpacked over the old tree, by a definition
  that knows nothing of system calls, faults, pieces or counters.  Both expanders are proved
  against it, and so against each other.
 */
module ExtractMeaning {
  import opened Paths
  import opened Os
  import opened Budget
  import opened Archives
  import opened ExtractFrame
  import opened ExtractMeter

  datatype Shape = Content(data: Bytes) | Folder | Alias(target: string)

  /** Names and contents: a tree without modes. */
  type Skeleton = map<Path, Shape>

  function ShapeOf(n: Node): Shape {
    match n
    case File(data, _) => Content(data)
    case Dir(_) => Folder
    case Link(target) => Alias(target)
  }

  function Shapes(m: Tree): Skeleton {
    map p | p in m :: ShapeOf(m[p])
  }

  function Ways(p: Path): set<Path> {
    set i | 0 <= i <= |p| :: p[..i]
  }

  /** The tree with every missing directory on the way to p, and p itself. */
  function AddDirs(t: Skeleton, p: Path): Skeleton {
    map q | q in t.Keys + Ways(p) :: if q in t then t[q] else Folder
  }

  predicate FoldersOnWay(t: Skeleton, p: Path) {
    forall q :: q in t && q <= p ==> t[q].Folder?
  }

  /** One entry unpacked; None if it cannot be. */
  function UnpackOne(env: Env, job: Job, t: Skeleton, e: Entry): Option<Skeleton> {
    var p := At(env, PathOf(job, e));
    if e.kind.Extended? then Some(t)
    else if !Contained(job, e) || p == [] then None
    else if e.kind.Directory? then (if FoldersOnWay(t, p) then Some(AddDirs(t, p)) else None)
    else if FoldersOnWay(t, Parent(p)) && !(p in t && t[p].Folder?)
    then Some(AddDirs(t, Parent(p))[p := Content(Flat(e.body.pieces))])
    else None
  }

  function Unpack(env: Env, job: Job, t: Skeleton, entries: seq<Entry>): Option<Skeleton>
    decreases |entries|
  {
    if entries == [] then Some(t)
    else
      var u := UnpackOne(env, job, t, entries[0]);
      if u.Some? then Unpack(env, job, u.value, entries[1..]) else None
  }

  // ------------------------------------------------------------------ trees and skeletons

  lemma WaysArePrefixes(p: Path)
    ensures forall q :: q in Ways(p) <==> q <= p
  {
    forall q | q <= p
      ensures q in Ways(p)
    {
      assert q == p[..|q|];
    }
  }

  lemma ShapesMade(m: Tree, m1: Tree, p: Path, perm: nat)
    requires WF(m1) && MadeDirs(m, m1, p, perm) && IsDir(m1, p)
    ensures Shapes(m1) == AddDirs(Shapes(m), p)
    ensures FoldersOnWay(Shapes(m), p)
  {
    WaysArePrefixes(p);
    var t, t1 := AddDirs(Shapes(m), p), Shapes(m1);
    forall q
      ensures q in t1 <==> q in t
      ensures q in t ==> t1[q] == t[q]
      ensures q in m && q <= p ==> m[q].Dir?
    {
      if q <= p {
        Ancestors(m1, q, p);
      }
      if q in m {
        assert m1[q] == m[q];
      }
    }
    assert t1.Keys == t.Keys;
    FoldersAreDirs(m, p);
  }

  lemma ShapesFile(m: Tree, p: Path, f: Node)
    requires f.File?
    ensures Shapes(m[p := f]) == Shapes(m)[p := Content(f.data)]
  {
  }

  lemma FoldersAreDirs(m: Tree, p: Path)
    ensures FoldersOnWay(Shapes(m), p) <==> DirsOnWay(m, p)
  {
    if FoldersOnWay(Shapes(m), p) {
      forall q | q in m && q <= p
        ensures m[q].Dir?
      {
        assert q in Shapes(m);
      }
    }
  }

  /** The file part of an entry, common to both formats. */
  lemma FileMeaning(env: Env, job: Job, m: Tree, m1: Tree, m2: Tree, e: Entry, perm: nat)
    requires Sound(env, job, m) && Contained(job, e) && e.kind.Regular?
    requires var p := At(env, PathOf(job, e));
      && p != [] && WF(m1) && MadeDirs(m, m1, Parent(p), perm)
      && IsDir(m1, Parent(p)) && !IsDir(m1, p)
      && p in m2 && m2[p].File? && m2[p].data == Flat(e.body.pieces) && m2 == m1[p := m2[p]]
    ensures UnpackOne(env, job, Shapes(m), e) == Some(Shapes(m2))
  {
    hide PlaceOf, Join, IsPathContained;
    var p := At(env, PathOf(job, e));
    ShapesMade(m, m1, Parent(p), perm);
    ShapesFile(m1, p, m2[p]);
    assert p in m ==> m1[p] == m[p];
  }

  // ------------------------------------------------------------------ tar

  /** The limits and the reader, as far as one entry is concerned. */
  predicate TarAdmits(job: Job, files: nat, total: int, e: Entry) {
    || e.kind.Extended?
    || (&& files + 1 <= job.limits.files
        && (e.kind.Regular? ==> e.size <= job.limits.maxEntry && !e.body.broken)
        && SpendOn(e, total, job.limits.maxTotal).ok)
  }

  lemma WriteSpends(env: Env, w: World, at: Path, e: Entry, total: int, max: int)
    requires WF(w.nodes) && Clear(w.nodes, at) && AllReal(at) && at != [] && Running(total, max)
    ensures var r, m, s := WriteEntry(env, w, at, e, total, max), w.nodes, Spend(Lengths(e.body.pieces), total, max);
      && (r.ok ==> s == Spent(r.counter, true))
      && (NoFault(env) ==> (r.ok <==> IsDir(m, Parent(at)) && !IsDir(m, at) && !e.body.broken && s.ok))
  {
    hide Walk, Feed, Spend;
    OpenFileEffect(env, w, at, e.mode);
    var o := OpenFile(env, w, at, e.mode);
    if o.file.Some? {
      FeedSpends(env, o.w, at, e.body.pieces, total, max);
    }
  }

  /** Writing a file once its directory has been seen to. */
  lemma WriteMeaning(env: Env, job: Job, m: Tree, w: World, e: Entry, perm: nat, total: int)
    requires Sound(env, job, m) && Contained(job, e) && e.kind.Regular? && Running(total, job.limits.maxTotal)
    requires var p := At(env, PathOf(job, e)); p != [] && WF(w.nodes) && MadeDirs(m, w.nodes, Parent(p), perm)
    ensures var p, u := At(env, PathOf(job, e)), UnpackOne(env, job, Shapes(m), e);
      var f, s := WriteEntry(env, w, p, e, total, job.limits.maxTotal), SpendOn(e, total, job.limits.maxTotal);
      && (f.ok ==> u == Some(Shapes(f.w.nodes)) && WF(f.w.nodes) && Clear(f.w.nodes, p) && p in f.w.nodes)
      && (u.Some? ==> DirsOnWay(m, Parent(p)))
      && (f.ok ==> s == Spent(f.counter, true))
      && (NoFault(env) && IsDir(w.nodes, Parent(p)) ==> (f.ok <==> u.Some? && !e.body.broken && s.ok))
  {
    hide Walk, PlaceOf, Join, IsPathContained, Spend;
    var p, d := At(env, PathOf(job, e)), At(env, job.dst);
    EntryPlace(env, job, e);
    FoldersAreDirs(m, Parent(p));
    MadeBelow(m, w.nodes, d, Parent(p), perm);
    ClearBelow(w.nodes, d, p);
    assert IsDir(w.nodes, p) <==> IsDir(m, p);
    if IsDir(w.nodes, Parent(p)) {
      ShapesMade(m, w.nodes, Parent(p), perm);
    }
    WriteEntryNodes(env, w, p, e, total, job.limits.maxTotal);
    WriteSpends(env, w, p, e, total, job.limits.maxTotal);
    var f := WriteEntry(env, w, p, e, total, job.limits.maxTotal);
    if f.ok {
      FileMeaning(env, job, m, w.nodes, f.w.nodes, e, perm);
      FileBelow(w.nodes, d, p, f.w.nodes[p]);
      ClearBelow(f.w.nodes, d, p);
    }
  }

  lemma TarFileMeaning(env: Env, job: Job, s: Tar, e: Entry)
    requires Sound(env, job, s.w.nodes) && Contained(job, e) && e.kind.Regular? && s.ok
    requires Running(s.total, job.limits.maxTotal)
    ensures var r, u := TarFile(env, job, s, e), UnpackOne(env, job, Shapes(s.w.nodes), e);
      var spent := SpendOn(e, s.total, job.limits.maxTotal);
      && (r.ok ==> u == Some(Shapes(r.w.nodes)) && spent == Spent(r.total, true))
      && (NoFault(env) ==> (r.ok <==> u.Some? && !e.body.broken && spent.ok))
  {
    hide Walk, PlaceOf, Join, IsPathContained, UnpackOne, WriteEntry, Chtimes, TarParent, SpendOn;
    EntryPlace(env, job, e);
    var m, p := s.w.nodes, At(env, PathOf(job, e));
    ClearBelow(m, At(env, job.dst), Parent(p));
    TarParentEffect(env, s.w, Parent(p));
    var dir := TarParent(env, s.w, Parent(p));
    WriteMeaning(env, job, m, dir.w, e, env.masked(DIR_MODE), s.total);
    var f := WriteEntry(env, dir.w, p, e, s.total, job.limits.maxTotal);
    if f.ok {
      ChtimesEffect(env, f.w, p, TimesOf(job, e));
    }
  }

  lemma TarDirectoryMeaning(env: Env, job: Job, s: Tar, e: Entry)
    requires Sound(env, job, s.w.nodes) && Contained(job, e) && e.kind.Directory? && s.ok
    ensures var r, u := TarDirectory(env, job, s, e), UnpackOne(env, job, Shapes(s.w.nodes), e);
      && (r.ok ==> u == Some(Shapes(r.w.nodes)))
      && (NoFault(env) ==> (r.ok <==> u.Some?))
  {
    hide Walk, PlaceOf, Join, IsPathContained;
    MkdirMeaning(env, job, s.w, e, DIR_MODE);
  }

  lemma MkdirMeaning(env: Env, job: Job, w: World, e: Entry, perm: nat)
    requires Sound(env, job, w.nodes) && Contained(job, e) && e.kind.Directory?
    ensures var r, u := MkdirAll(env, w, At(env, PathOf(job, e)), perm), UnpackOne(env, job, Shapes(w.nodes), e);
      && (r.ok ==> u == Some(Shapes(r.w.nodes)))
      && (NoFault(env) ==> (r.ok <==> u.Some?))
  {
    hide Walk, PlaceOf, Join, IsPathContained;
    var m, p := w.nodes, At(env, PathOf(job, e));
    EntryPlace(env, job, e);
    ClearBelow(m, At(env, job.dst), p);
    MkdirAllEffect(env, w, p, perm);
    FoldersAreDirs(m, p);
    var r := MkdirAll(env, w, p, perm);
    if r.ok {
      ShapesMade(m, r.w.nodes, p, env.masked(perm));
    }
  }

  lemma TarEntryMeaning(env: Env, job: Job, s: Tar, e: Entry)
    requires Sound(env, job, s.w.nodes) && s.ok && Running(s.total, job.limits.maxTotal)
    ensures var r, u := TarEntry(env, job, s, e), UnpackOne(env, job, Shapes(s.w.nodes), e);
      && (r.ok ==> u == Some(Shapes(r.w.nodes)) && SpendOn(e, s.total, job.limits.maxTotal) == Spent(r.total, true))
      && (r.ok ==> r.headers == s.headers + 1 && r.files == s.files + (if e.kind.Extended? then 0 else 1))
      && (NoFault(env) ==> (r.ok <==> u.Some? && TarAdmits(job, s.files, s.total, e)))
  {
    hide Walk, PlaceOf, Join, IsPathContained, Spend, WriteEntry, TarParent, Chtimes;
    var s1 := s.(headers := s.headers + 1, files := s.files + 1);
    if !e.kind.Extended? && Contained(job, e) {
      EntryPlace(env, job, e);
      if e.kind.Directory? {
        TarDirectoryMeaning(env, job, s1, e);
      } else {
        TarFileMeaning(env, job, s1, e);
      }
    }
  }

  /** The entries that count against the files limit: all but extended headers. */
  function Count(entries: seq<Entry>): nat {
    if entries == [] then 0 else (if entries[0].kind.Extended? then 0 else 1) + Count(entries[1..])
  }

  predicate Readable(job: Job, entries: seq<Entry>) {
    entries == [] ||
      (&& (entries[0].kind.Regular? ==> entries[0].size <= job.limits.maxEntry && !entries[0].body.broken)
       && Readable(job, entries[1..]))
  }

  /** Everything that decides whether a fault-free extraction succeeds. */
  ghost predicate Acceptable(env: Env, job: Job, t: Skeleton, files: nat, total: int, entries: seq<Entry>) {
    && Unpack(env, job, t, entries).Some?
    && files + Count(entries) <= job.limits.files
    && Readable(job, entries)
    && Tally(entries, total, job.limits.maxTotal).ok
  }

  lemma AcceptableStep(env: Env, job: Job, t: Skeleton, files: nat, total: int, entries: seq<Entry>)
    requires entries != [] && files <= job.limits.files
    ensures var e := entries[0];
      var u := UnpackOne(env, job, t, e);
      Acceptable(env, job, t, files, total, entries) <==>
        && u.Some? && TarAdmits(job, files, total, e)
        && Acceptable(env, job, u.value, files + (if e.kind.Extended? then 0 else 1),
             SpendOn(e, total, job.limits.maxTotal).counter, entries[1..])
  {
    hide UnpackOne;
  }

  lemma {:induction false} TarLoopMeaning(env: Env, job: Job, s: Tar, entries: seq<Entry>)
    requires Sound(env, job, s.w.nodes) && s.ok && s.files <= job.limits.files && Running(s.total, job.limits.maxTotal)
    ensures var r, u := TarLoop(env, job, s, entries), Unpack(env, job, Shapes(s.w.nodes), entries);
      && (r.ok ==> u == Some(Shapes(r.w.nodes)) && r.headers == s.headers + |entries|)
      && (r.ok ==> Tally(entries, s.total, job.limits.maxTotal) == Spent(r.total, true))
      && (NoFault(env) ==> (r.ok <==> Acceptable(env, job, Shapes(s.w.nodes), s.files, s.total, entries)))
    decreases |entries|
  {
    hide Walk, PlaceOf, Join, IsPathContained, UnpackOne, TarEntry, SpendOn;
    if entries != [] {
      var e := entries[0];
      TarEntryFrame(env, job, s, e);
      TarEntryMeaning(env, job, s, e);
      TarEntryCounts(env, job, s, e);
      AcceptableStep(env, job, Shapes(s.w.nodes), s.files, s.total, entries);
      var s1 := TarEntry(env, job, s, e);
      if s1.ok {
        SpendOnRuns(e, s.total, job.limits.maxTotal);
        TarLoopMeaning(env, job, s1, entries[1..]);
      }
    }
  }

  lemma TarEntryCounts(env: Env, job: Job, s: Tar, e: Entry)
    requires s.files <= job.limits.files && s.ok
    ensures TarEntry(env, job, s, e).ok ==> TarEntry(env, job, s, e).files <= job.limits.files
  {
    hide Walk, PlaceOf, Join, IsPathContained, TarParent, WriteEntry;
  }

  /** The deferred pass leaves names and contents alone, and only a fault can stop it. */
  lemma {:induction false} TarDirsMeaning(env: Env, job: Job, w: World, seen: map<string, Entry>, keys: seq<string>)
    requires Sound(env, job, w.nodes) && SeenDirs(env, job, w.nodes, seen)
    ensures var r := TarDirs(env, job, w, seen, keys);
      && Shapes(r.w.nodes) == Shapes(w.nodes)
      && (NoFault(env) ==> r.ok)
    decreases |keys|
  {
    hide Walk, PlaceOf, Join, IsPathContained, Chmod, Chtimes;
    var d := At(env, job.dst);
    if keys != [] {
      if keys[0] !in seen {
        TarDirsMeaning(env, job, w, seen, keys[1..]);
      } else {
        var e, p := seen[keys[0]], At(env, keys[0]);
        ClearBelow(w.nodes, d, p);
        ChmodEffect(env, w, p, e.mode);
        var c := Chmod(env, w, p, e.mode);
        if c.ok {
          ChmodFrame(w.nodes, d, p, e.mode);
          SeenKept(env, job, w.nodes, c.w.nodes, seen);
          assert Shapes(w.nodes[p := Dir(e.mode)]) == Shapes(w.nodes);
          ClearBelow(c.w.nodes, d, p);
          ChtimesEffect(env, c.w, p, TimesOf(job, e));
          var t := Chtimes(env, c.w, p, TimesOf(job, e));
          if t.ok {
            TarDirsMeaning(env, job, t.w, seen, keys[1..]);
          }
        }
      }
    }
  }

  /** Limits as Effective resolves them. */
  predicate Resolved(limits: Limits) {
    0 <= limits.files && 0 <= limits.maxTotal
  }

  lemma UntarMeaning(env: Env, job: Job, w: World, archive: Archive)
    requires Sound(env, job, w.nodes) && Resolved(job.limits)
    ensures var r, u := Untar(env, job, w, archive), Unpack(env, job, Shapes(w.nodes), archive.entries);
      && (r.ok ==>
            && u == Some(Shapes(r.w.nodes))
            && Tally(archive.entries, 0, job.limits.maxTotal) == Spent(r.total, true))
      && (NoFault(env) ==>
            (r.ok <==> archive.entries != [] && !archive.broken
                       && Acceptable(env, job, Shapes(w.nodes), 0, 0, archive.entries)))
  {
    hide Walk, PlaceOf, Join, IsPathContained, UnpackOne, TarEntry, Unpack, TarDirs, Tally;
    TarLoopMeaning(env, job, StartTar(w), archive.entries);
    TarLoopFrame(env, job, StartTar(w), archive.entries);
    TarLoopSeen(env, job, StartTar(w), archive.entries);
    var s := TarLoop(env, job, StartTar(w), archive.entries);
    TarDirsMeaning(env, job, s.w, s.seen, env.order(s.seen.Keys));
  }
}
