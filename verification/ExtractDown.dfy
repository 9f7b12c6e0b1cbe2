/**
  Containment of an extraction with symlinks in the destination: if they all lead downwards, no
  list of entries and no pattern of failures changes anything outside the destination.
 */
module ExtractDown {
  import opened Paths
  import opened Os
  import opened RawPaths
  import opened Frames
  import opened Budget
  import opened Archives
  import opened ExtractFrame

  /** A target that leads down from where the symlink is. */
  predicate Downward(target: string) {
    !Rooted(target) && ".." !in Split(target)
  }

  /** No symlink is at d or on the way to it, and those below lead downwards. */
  ghost predicate LinksDown(m: Tree, d: Path) {
    forall q :: q in m && m[q].Link? ==> !(q <= d) && (d < q ==> Downward(m[q].target))
  }

  /** Nothing is deleted or changes its kind, and no symlink is added or changed. */
  ghost predicate Grows(m: Tree, m2: Tree) {
    && WF(m2)
    && (forall p :: p in m ==> p in m2 && (m[p].Dir? <==> m2[p].Dir?) && (m[p].Link? || m2[p].Link? ==> m2[p] == m[p]))
    && (forall p :: p in m2 && p !in m ==> !m2[p].Link?)
  }

  /** And if the symlinks below d lead downwards, nothing outside d changes but new directories on
      the way to it. */
  ghost predicate Extends(m: Tree, m2: Tree, d: Path) {
    WF(m2) && Grows(m, m2) && (LinksDown(m, d) ==> Within(m, m2, d))
  }

  lemma ExtendsSelf(m: Tree, d: Path)
    requires WF(m)
    ensures Extends(m, m, d)
  {
  }

  lemma WithinTrans(m: Tree, m1: Tree, m2: Tree, d: Path)
    requires Within(m, m1, d) && Within(m1, m2, d) && (forall p :: p in m ==> p in m1)
    ensures Within(m, m2, d)
  {
    forall p
      ensures d <= p || Get(m2, p) == Get(m, p) || (p < d && p !in m && IsDir(m2, p))
    {
      assert d <= p || Get(m1, p) == Get(m, p) || (p < d && p !in m && IsDir(m1, p));
      assert d <= p || Get(m2, p) == Get(m1, p) || (p < d && p !in m1 && IsDir(m2, p));
    }
  }

  lemma ExtendsTrans(m: Tree, m1: Tree, m2: Tree, d: Path)
    requires Extends(m, m1, d) && Extends(m1, m2, d)
    ensures Extends(m, m2, d)
  {
    hide Within;
    if LinksDown(m, d) {
      GrowsDown(m, m1, d);
      WithinTrans(m, m1, m2, d);
    }
  }

  lemma GrowsDown(m: Tree, m2: Tree, d: Path)
    requires LinksDown(m, d) && Grows(m, m2)
    ensures LinksDown(m2, d)
  {
  }

  lemma ExtendsNew(m: Tree, d: Path, q: Path, node: Node)
    requires WF(m) && q !in m && q != [] && AllReal(q) && IsDir(m, Parent(q)) && !node.Link?
    requires LinksDown(m, d) ==> d <= q || (q < d && node.Dir?)
    ensures Extends(m, m[q := node], d)
  {
    PutWF(m, q, node);
  }

  lemma ExtendsSet(m: Tree, d: Path, q: Path, node: Node)
    requires WF(m) && q in m && (m[q].Dir? <==> node.Dir?) && !m[q].Link? && !node.Link?
    requires LinksDown(m, d) ==> d <= q
    ensures Extends(m, m[q := node], d)
  {
    var m2 := m[q := node];
    forall p | p in m2 && p != []
      ensures IsDir(m2, Parent(p))
    {
      assert IsDir(m, Parent(p));
    }
  }

  // ------------------------------------------------------------------ resolution

  /** From a place at or below d, resolution without ".." stays there. */
  lemma {:induction false} WalkDown(m: Tree, d: Path, cur: Path, todo: seq<string>, links: nat, follow: bool)
    requires LinksDown(m, d) && d <= cur && ".." !in todo
    ensures var r := Walk(m, [], false, cur, todo, links, follow); r.Found? || r.Missing? ==> d <= r.path
    decreases links, |todo|
  {
    if todo != [] {
      var c, rest := todo[0], todo[1..];
      assert forall x :: x in rest ==> x in todo;
      var next := cur + [c];
      if c == "" || c == "." {
        WalkDown(m, d, cur, rest, links, follow);
      } else if next in m {
        assert d < next;
        match m[next]
        case Dir(_) => WalkDown(m, d, next, rest, links, follow);
        case File(_, _) =>
        case Link(target) =>
          if links > 0 && !(rest == [] && !follow) {
            WalkDown(m, d, cur, Split(target) + rest, links - 1, follow);
          }
      }
    }
  }

  predicate Comparable(p: Path, d: Path) {
    p <= d || d <= p
  }

  /** A path through d or on the way to it leads at or below d, or to its own place above. */
  lemma PathDown(env: Env, m: Tree, d: Path, p: Path, follow: bool)
    requires WF(m) && AllReal(p) && Comparable(p, d)
    ensures var r := Locate(env, m, p, follow);
      LinksDown(m, d) && (r.Found? || r.Missing?) ==> d <= r.path || (p < d && r.path == p)
  {
    hide Walk;
    if !LinksDown(m, d) {
    } else if p <= d {
      forall q | q in m && q <= p
        ensures !m[q].Link?
      {
        assert q == p[..|q|] == d[..|q|];
      }
      LocateClear(env, m, p, follow);
    } else if IsDir(m, d) {
      var rest := p[|d|..];
      assert d + rest == p;
      WalkFrom(m, d, rest, env.maxLinks, follow);
      assert forall x :: x in rest ==> x in p;
      WalkDown(m, d, d, rest, env.maxLinks, follow);
    } else {
      forall q | q in m && q <= p
        ensures q <= d
      {
        if |q| > |d| {
          assert d == p[..|d|] == q[..|d|];
          Ancestors(m, d, q);
        } else {
          assert q == p[..|q|] == d[..|q|];
        }
      }
      LocateClear(env, m, p, follow);
      ParentPrefix(d, p);
      if IsDir(m, Parent(p)) {
        Ancestors(m, d, Parent(p));
      }
    }
  }

  // ------------------------------------------------------------------ the calls

  lemma MkdirDown(env: Env, w: World, d: Path, p: Path, perm: nat)
    requires WF(w.nodes) && AllReal(p) && Comparable(p, d)
    ensures Extends(w.nodes, Mkdir(env, w, p, perm).w.nodes, d)
  {
    hide Walk;
    LookUp(env, w.nodes, p, false);
    PathDown(env, w.nodes, d, p, false);
    ExtendsSelf(w.nodes, d);
    if !env.fault(w.tick) && Locate(env, w.nodes, p, false).Missing? {
      ExtendsNew(w.nodes, d, Locate(env, w.nodes, p, false).path, Dir(env.masked(perm)));
    }
  }

  lemma {:induction false} MkdirAllDown(env: Env, w: World, d: Path, p: Path, perm: nat)
    requires WF(w.nodes) && AllReal(p) && Comparable(p, d)
    ensures Extends(w.nodes, MkdirAll(env, w, p, perm).w.nodes, d)
    decreases |p|
  {
    hide Walk, Locate, LinksDown, Within, Grows, Mkdir, IsDirEntry;
    ExtendsSelf(w.nodes, d);
    if p == [] {
      MkdirDown(env, Tick(w), d, p, perm);
    } else {
      ParentComparable(p, d);
      MkdirAllDown(env, Tick(w), d, Parent(p), perm);
      var up := MkdirAll(env, Tick(w), Parent(p), perm);
      MkdirDown(env, up.w, d, p, perm);
      ExtendsTrans(w.nodes, up.w.nodes, Mkdir(env, up.w, p, perm).w.nodes, d);
    }
  }

  lemma ParentComparable(p: Path, d: Path)
    requires Comparable(p, d) && p != []
    ensures Comparable(Parent(p), d) && (AllReal(p) ==> AllReal(Parent(p)))
  {
    if d <= p && d != p {
      ParentPrefix(d, p);
    } else {
      assert Parent(p) <= p <= d;
      assert Parent(p) == d[..|p| - 1];
    }
  }

  lemma WriteEntryDown(env: Env, w: World, d: Path, p: Path, e: Entry, total: int, max: int)
    requires WF(w.nodes) && AllReal(p) && d <= p
    ensures Extends(w.nodes, WriteEntry(env, w, p, e, total, max).w.nodes, d)
  {
    hide Walk, Feed;
    var m := w.nodes;
    LookUp(env, m, p, true);
    PathDown(env, m, d, p, true);
    ExtendsSelf(m, d);
    var o := OpenFile(env, w, p, e.mode);
    if o.file.Some? {
      var q := o.file.value;
      FeedNodes(env, o.w, q, e.body.pieces, total, max);
      var m2 := Feed(env, o.w, q, e.body.pieces, total, max).w.nodes;
      assert m[q := o.w.nodes[q]][q := m2[q]] == m[q := m2[q]];
      if q in m {
        ExtendsSet(m, d, q, m2[q]);
      } else {
        ExtendsNew(m, d, q, m2[q]);
      }
    }
  }

  lemma ChmodDown(env: Env, w: World, d: Path, p: Path, mode: nat)
    requires WF(w.nodes) && AllReal(p) && d <= p
    ensures Extends(w.nodes, Chmod(env, w, p, mode).w.nodes, d)
  {
    hide Walk;
    LookUp(env, w.nodes, p, true);
    PathDown(env, w.nodes, d, p, true);
    ExtendsSelf(w.nodes, d);
    var at := Locate(env, w.nodes, p, true);
    if at.Found? {
      ExtendsSet(w.nodes, d, at.path, w.nodes[at.path].(perm := mode));
    }
  }

  lemma ChtimesNodes(env: Env, w: World, p: Path, times: Times)
    ensures Chtimes(env, w, p, times).w.nodes == w.nodes
  {
    hide Walk;
  }

  // ------------------------------------------------------------------ tar

  lemma TarFileDown(env: Env, job: Job, s: Tar, e: Entry)
    requires GoodJob(env, job) && WF(s.w.nodes) && Contained(job, e)
    ensures Extends(s.w.nodes, TarFile(env, job, s, e).w.nodes, At(env, job.dst))
  {
    hide Walk, Locate, PlaceOf, Join, IsPathContained, WriteEntry, Chtimes, MkdirAll, LinksDown, Within, Grows;
    EntryPlace(env, job, e);
    var m, d, p := s.w.nodes, At(env, job.dst), At(env, PathOf(job, e));
    ExtendsSelf(m, d);
    MkdirAllDown(env, Tick(s.w), d, Parent(p), DIR_MODE);
    var dir := TarParent(env, s.w, Parent(p));
    WriteEntryDown(env, dir.w, d, p, e, s.total, job.limits.maxTotal);
    var f := WriteEntry(env, dir.w, p, e, s.total, job.limits.maxTotal);
    ExtendsTrans(m, dir.w.nodes, f.w.nodes, d);
    ChtimesNodes(env, f.w, p, TimesOf(job, e));
  }

  lemma TarEntryDown(env: Env, job: Job, s: Tar, e: Entry)
    requires GoodJob(env, job) && WF(s.w.nodes)
    ensures Extends(s.w.nodes, TarEntry(env, job, s, e).w.nodes, At(env, job.dst))
  {
    hide Walk, Locate, PlaceOf, Join, IsPathContained, TarFile, MkdirAll, LinksDown, Within, Grows;
    var s1 := s.(headers := s.headers + 1, files := s.files + 1);
    ExtendsSelf(s.w.nodes, At(env, job.dst));
    if Contained(job, e) {
      EntryPlace(env, job, e);
      MkdirAllDown(env, s.w, At(env, job.dst), At(env, PathOf(job, e)), DIR_MODE);
      TarFileDown(env, job, s1, e);
    }
  }

  /** Every key is the cleaned path of a contained entry. */
  ghost predicate SeenBelow(job: Job, seen: map<string, Entry>) {
    forall k :: k in seen ==> Contained(job, seen[k]) && k == PathOf(job, seen[k])
  }

  lemma {:induction false} TarLoopDown(env: Env, job: Job, s: Tar, entries: seq<Entry>)
    requires GoodJob(env, job) && WF(s.w.nodes) && SeenBelow(job, s.seen)
    ensures var r := TarLoop(env, job, s, entries);
      Extends(s.w.nodes, r.w.nodes, At(env, job.dst)) && SeenBelow(job, r.seen)
    decreases |entries|
  {
    hide Walk, Locate, PlaceOf, Join, IsPathContained, TarEntry, LinksDown, Within, Grows;
    var d := At(env, job.dst);
    ExtendsSelf(s.w.nodes, d);
    if entries != [] && s.ok {
      var s1 := TarEntry(env, job, s, entries[0]);
      TarEntryDown(env, job, s, entries[0]);
      TarEntryRemembers(env, job, s, entries[0]);
      TarLoopDown(env, job, s1, entries[1..]);
      ExtendsTrans(s.w.nodes, s1.w.nodes, TarLoop(env, job, s1, entries[1..]).w.nodes, d);
    }
  }

  lemma {:induction false} TarDirsDown(env: Env, job: Job, w: World, seen: map<string, Entry>, keys: seq<string>)
    requires GoodJob(env, job) && WF(w.nodes) && SeenBelow(job, seen)
    ensures Extends(w.nodes, TarDirs(env, job, w, seen, keys).w.nodes, At(env, job.dst))
    decreases |keys|
  {
    hide Walk, Locate, PlaceOf, Join, IsPathContained, Chmod, Chtimes, LinksDown, Within, Grows;
    var d := At(env, job.dst);
    ExtendsSelf(w.nodes, d);
    if keys != [] {
      if keys[0] !in seen {
        TarDirsDown(env, job, w, seen, keys[1..]);
      } else {
        var e, p := seen[keys[0]], At(env, keys[0]);
        EntryPlace(env, job, e);
        ChmodDown(env, w, d, p, e.mode);
        var c := Chmod(env, w, p, e.mode);
        ChtimesNodes(env, c.w, p, TimesOf(job, e));
        var t := Chtimes(env, c.w, p, TimesOf(job, e));
        TarDirsDown(env, job, t.w, seen, keys[1..]);
        ExtendsTrans(w.nodes, c.w.nodes, TarDirs(env, job, t.w, seen, keys[1..]).w.nodes, d);
      }
    }
  }

  /** Whatever the list, the names and the failures: untar deletes nothing and adds no symlink; and
      if the symlinks below dst lead downwards, nothing outside dst changes but new directories on
      the way to it. */
  lemma UntarDown(env: Env, job: Job, w: World, archive: Archive)
    requires GoodJob(env, job) && WF(w.nodes)
    ensures Extends(w.nodes, Untar(env, job, w, archive).w.nodes, At(env, job.dst))
  {
    hide Walk, Locate, PlaceOf, Join, IsPathContained, TarEntry, TarDirs, LinksDown, Within, Grows;
    var d, s := At(env, job.dst), TarLoop(env, job, StartTar(w), archive.entries);
    TarLoopDown(env, job, StartTar(w), archive.entries);
    var keys := env.order(s.seen.Keys);
    TarDirsDown(env, job, s.w, s.seen, keys);
    ExtendsTrans(w.nodes, s.w.nodes, TarDirs(env, job, s.w, s.seen, keys).w.nodes, d);
  }

  // ------------------------------------------------------------------ zip

  lemma ZipEntryDown(env: Env, job: Job, s: Zip, e: Member)
    requires GoodJob(env, job) && WF(s.w.nodes)
    ensures Extends(s.w.nodes, ZipEntry(env, job, s, e).w.nodes, At(env, job.dst))
  {
    hide Walk, Locate, PlaceOf, Join, IsPathContained, WriteEntry, MkdirAll, LinksDown, Within, Grows;
    var m, d := s.w.nodes, At(env, job.dst);
    ExtendsSelf(m, d);
    if Contained(job, e) {
      EntryPlace(env, job, e);
      var p := At(env, PathOf(job, e));
      var place := if e.kind.Directory? then p else Parent(p);
      MkdirAllDown(env, s.w, d, place, job.umask);
      var dir := MkdirAll(env, s.w, place, job.umask);
      WriteEntryDown(env, Touchless(env, dir.w).w, d, p, e, s.total, job.limits.maxTotal);
      ExtendsTrans(m, dir.w.nodes,
        WriteEntry(env, Touchless(env, dir.w).w, p, e, s.total, job.limits.maxTotal).w.nodes, d);
    }
  }

  lemma {:induction false} ZipLoopDown(env: Env, job: Job, s: Zip, entries: seq<Member>)
    requires GoodJob(env, job) && WF(s.w.nodes)
    ensures Extends(s.w.nodes, ZipLoop(env, job, s, entries).w.nodes, At(env, job.dst))
    decreases |entries|
  {
    hide Walk, PlaceOf, ZipEntry, LinksDown, Within, Grows;
    var d := At(env, job.dst);
    ExtendsSelf(s.w.nodes, d);
    if entries != [] && s.ok {
      var s1 := ZipEntry(env, job, s, entries[0]);
      ZipEntryDown(env, job, s, entries[0]);
      ZipLoopDown(env, job, s1, entries[1..]);
      ExtendsTrans(s.w.nodes, s1.w.nodes, ZipLoop(env, job, s1, entries[1..]).w.nodes, d);
    }
  }

  /** The same for zip. */
  lemma UnzipDown(env: Env, job: Job, w: World, entries: seq<Member>)
    requires GoodJob(env, job) && WF(w.nodes)
    ensures Extends(w.nodes, Unzip(env, job, w, entries).w.nodes, At(env, job.dst))
  {
    hide PlaceOf, ZipEntry;
    ExtendsSelf(w.nodes, At(env, job.dst));
    ZipLoopDown(env, job, Zip(w, 0, 0, true), entries);
  }
}
