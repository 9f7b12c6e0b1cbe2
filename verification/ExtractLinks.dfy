/**
  The limit of the lexical check: it does not resolve symlinks, so a symlink that is already in
  the destination can carry an entry out of it.  For a single entry this says exactly when.
 */
module ExtractLinks {
  import opened Paths
  import opened Os
  import opened RawPaths
  import opened Frames
  import opened Budget
  import opened Archives
  import opened ExtractDown

  // ------------------------------------------------------------------ resolution with symlinks

  /** Where a name was missing and is a directory now, resolution goes on from there. */
  lemma {:induction false} WalkAfter(m: Tree, m2: Tree, cur: Path, a: seq<string>, q: Path, b: Path, links: nat,
                                     follow: bool)
    requires Walk(m, [], false, cur, a, links, false) == Missing(q)
    requires WF(m2) && AllReal(b) && (forall x :: x in m ==> x in m2 && m2[x] == m[x])
    requires IsDir(m2, q) && ClearWay(m2, q + b, follow)
    ensures var r, p := Walk(m2, [], false, cur, a + b, links, follow), q + b;
      && (p in m2 ==> r.Found? && r.path == p)
      && (p !in m2 ==> p != [])
      && (p !in m2 && IsDir(m2, Parent(p)) ==> r == Missing(p))
    decreases links, |a|
  {
    var c, rest := a[0], a[1..];
    assert (a + b)[0] == c && (a + b)[1..] == rest + b;
    if c == "" || c == "." {
      WalkAfter(m, m2, cur, rest, q, b, links, follow);
    } else if c == ".." {
      WalkAfter(m, m2, if cur == [] then cur else Parent(cur), rest, q, b, links, follow);
    } else if cur + [c] in m {
      match m[cur + [c]]
      case Dir(_) => WalkAfter(m, m2, cur + [c], rest, q, b, links, follow);
      case Link(target) =>
        assert Split(target) + rest + b == Split(target) + (rest + b);
        WalkAfter(m, m2, if Rooted(target) then [] else cur, Split(target) + rest, q, b, links - 1, follow);
    } else {
      assert rest == [] && rest + b == b;
      WalkClear(m2, q, b, links, follow);
    }
  }

  // ------------------------------------------------------------------ where MkdirAll makes directories

  /** The shortest prefix of p that has to be made, as far as MkdirAll can tell. */
  function Stub(env: Env, m: Tree, p: Path): (u: Path)
    ensures u <= p
    decreases |p|
  {
    if p == [] || Locate(env, m, p, true).Found? || Locate(env, m, Parent(p), true).Found? then p
    else Stub(env, m, Parent(p))
  }

  /** The place of the first directory that MkdirAll makes for p: where that prefix leads if its
      name is free. */
  function FirstMade(env: Env, m: Tree, p: Path): Option<Path> {
    var r := Locate(env, m, Stub(env, m, p), false);
    if p == [] || Locate(env, m, p, true).Found? || !r.Missing? then None else Some(r.path)
  }

  /** m2 is m with the directories from q to q + b. */
  predicate MadeFrom(m: Tree, m2: Tree, q: Path, b: Path) {
    && WF(m2) && IsDir(m2, q + b)
    && (forall x :: x in m ==> x in m2 && m2[x] == m[x])
    && (forall x :: x in m2 && x !in m ==> q <= x <= q + b && m2[x].Dir?)
  }

  /** Fault-free, MkdirAll makes nothing, or the directories from the place of the first one on,
      straight below one another. */
  lemma {:induction false} MkdirAllLands(env: Env, w: World, p: Path, perm: nat)
    requires NoFault(env) && WF(w.nodes) && AllReal(p)
    ensures var r, m, first := MkdirAll(env, w, p, perm), w.nodes, FirstMade(env, w.nodes, p);
      && (first.None? ==>
            && r.w.nodes == m
            && (r.ok <==> Locate(env, m, p, true).Found? && IsDir(m, Locate(env, m, p, true).path)))
      && (first.Some? ==> r.ok && first.value !in m && MadeFrom(m, r.w.nodes, first.value, p[|Stub(env, m, p)|..]))
    decreases |p|
  {
    hide Walk, Locate;
    var m := w.nodes;
    LookUp(env, m, p, true);
    if Locate(env, m, p, true).Found? || p == [] {
      RootFound(env, m);
    } else {
      var up := Parent(p);
      MkdirAllLands(env, Tick(w), up, perm);
      if Locate(env, m, up, true).Found? {
        LastDirectory(env, Tick(Tick(w)), p, perm);
        ParentStubs(env, m, up);
        assert p[|p|..] == [];
      } else {
        var r := MkdirAll(env, Tick(w), up, perm);
        RootFound(env, m);
        assert Stub(env, m, p) == Stub(env, m, up);
        if FirstMade(env, m, up).Some? {
          NextDirectory(env, m, r.w, p, perm);
        }
      }
    }
  }

  lemma RootFound(env: Env, m: Tree)
    ensures Locate(env, m, [], true).Found?
  {
  }

  lemma ParentStubs(env: Env, m: Tree, up: Path)
    requires Locate(env, m, up, true).Found?
    ensures FirstMade(env, m, up).None?
  {
    hide Walk, Locate;
  }

  /** The parent is there: Mkdir makes the directory where the name leads, if it is free. */
  lemma LastDirectory(env: Env, w: World, p: Path, perm: nat)
    requires NoFault(env) && WF(w.nodes) && AllReal(p) && p != []
    requires Locate(env, w.nodes, Parent(p), true).Found? && !Locate(env, w.nodes, p, true).Found?
    ensures var r, m, up := MkdirChecked(env, w, p, perm), w.nodes, Locate(env, w.nodes, Parent(p), true).path;
      && up in m
      && (!IsDir(m, up) ==> !Locate(env, m, p, false).Missing?)
      && (match Locate(env, m, p, false)
          case Missing(q) => r.ok && q !in m && MadeFrom(m, r.w.nodes, q, [])
          case _ => !r.ok && r.w.nodes == m)
  {
    hide Walk;
    var m, up := w.nodes, Parent(p);
    LookUp(env, m, up, true);
    LookUp(env, m, p, false);
    if Locate(env, m, p, false).Found? && IsDir(m, Locate(env, m, p, false).path) {
      NoLinkAtEnd(m, [], p, env.maxLinks);
    }
    assert p == up + [Last(p)];
    if !IsDir(m, Locate(env, m, up, true).path) {
      WalkBlocked(m, [], up, [Last(p)], env.maxLinks, false);
    }
    if Locate(env, m, p, false).Missing? {
      var q := Locate(env, m, p, false).path;
      PutWF(m, q, Dir(env.masked(perm)));
      assert q + [] == q;
    }
  }

  /** Below a directory that was just made the next one has a free name. */
  lemma NextName(env: Env, m: Tree, m2: Tree, u: Path, q: Path, b: Path, p: Path, follow: bool)
    requires WF(m) && AllReal(p) && p != [] && u <= Parent(p) && b == Parent(p)[|u|..]
    requires Locate(env, m, u, false) == Missing(q) && q !in m && MadeFrom(m, m2, q, b)
    ensures var e := q + b + [Last(p)];
      Locate(env, m2, p, follow) == Missing(e) && e !in m2 && AllReal(e) && IsDir(m2, Parent(e))
  {
    hide Walk;
    var e := q + b + [Last(p)];
    assert u + (b + [Last(p)]) == p;
    assert q + (b + [Last(p)]) == e && Parent(e) == q + b;
    Ancestors(m2, q, q + b);
    NewBelow(m, m2, q, b, e);
    WalkAfter(m, m2, [], u, q, b + [Last(p)], env.maxLinks, follow);
    ChildIsReal(m2, q + b, Last(p));
  }

  lemma NextDirectory(env: Env, m: Tree, w: World, p: Path, perm: nat)
    requires NoFault(env) && WF(m) && AllReal(p) && p != [] && FirstMade(env, m, Parent(p)).Some?
    requires var up, q := Parent(p), FirstMade(env, m, Parent(p)).value;
      q !in m && MadeFrom(m, w.nodes, q, up[|Stub(env, m, up)|..])
    ensures var r, u := MkdirChecked(env, w, p, perm), Stub(env, m, Parent(p));
      r.ok && MadeFrom(m, r.w.nodes, FirstMade(env, m, Parent(p)).value, p[|u|..])
  {
    hide Walk, Locate, Stub;
    var u, q := Stub(env, m, Parent(p)), FirstMade(env, m, Parent(p)).value;
    var b := Parent(p)[|u|..];
    var e := q + b + [Last(p)];
    NextName(env, m, w.nodes, u, q, b, p, false);
    assert p[|u|..] == b + [Last(p)] && q + (b + [Last(p)]) == e;
    PutWF(w.nodes, e, Dir(env.masked(perm)));
  }

  lemma NewBelow(m: Tree, m2: Tree, q: Path, b: Path, e: Path)
    requires WF(m) && q !in m && MadeFrom(m, m2, q, b) && e != [] && Parent(e) == q + b
    ensures e !in m2 && (forall follow :: ClearWay(m2, e, follow))
  {
    assert e[..|q + b|] == q + b;
    assert q == e[..|q|];
    if e in m {
      Ancestors(m, q, e);
    }
    assert !(e <= q + b);
    forall x | x in m2 && x <= e
      ensures !m2[x].Link?
    {
      ParentPrefix(x, e);
      Ancestors(m2, x, q + b);
    }
  }

  // ------------------------------------------------------------------ where a file entry is written

  /** m2 differs from m at the given place and below it; if something was there, only in it. */
  ghost predicate ChangesAt(m: Tree, m2: Tree, place: Option<Path>) {
    match place
    case None => m2 == m
    case Some(q) =>
      && q in m2 && (q in m ==> m2 == m[q := m2[q]])
      && (forall x {:trigger Get(m2, x)} :: q <= x || Get(m2, x) == Get(m, x))
  }

  /** The topmost place that writing the file p changes, its directories included. */
  function FileTouch(env: Env, m: Tree, p: Path): Option<Path>
    requires p != []
  {
    if Locate(env, m, Parent(p), true).Found? then
      match Locate(env, m, p, true)
      case Missing(q) => Some(q)
      case Found(q, _) => if q in m && m[q].File? then Some(q) else None
      case _ => None
    else FirstMade(env, m, Parent(p))
  }

  lemma WriteLands(env: Env, w: World, p: Path, e: Entry, total: int, max: int)
    requires NoFault(env) && WF(w.nodes) && AllReal(p)
    ensures var r, m := WriteEntry(env, w, p, e, total, max), w.nodes;
      match Locate(env, m, p, true)
      case Missing(q) =>
        q !in m && q in r.w.nodes && r.w.nodes == m[q := r.w.nodes[q]]
      case Found(q, _) =>
        q in m && if m[q].File? then
          r.w.nodes == m[q := File(Afford(e.body.pieces, total, max), m[q].perm)]
        else r.w.nodes == m
      case _ => r.w.nodes == m
  {
    LookUp(env, w.nodes, p, true);
    hide Locate;
    var o := OpenFile(env, w, p, e.mode);
    if o.file.Some? {
      var q := o.file.value;
      FeedNodes(env, o.w, q, e.body.pieces, total, max);
      FeedAffords(env, o.w, q, e.body.pieces, total, max);
      var r := Feed(env, o.w, q, e.body.pieces, total, max);
      assert w.nodes[q := o.w.nodes[q]][q := r.w.nodes[q]] == w.nodes[q := r.w.nodes[q]];
      var bytes := Afford(e.body.pieces, total, max);
      assert [] + bytes == bytes;
    }
  }

  /** A path that cannot be resolved has nothing to be made. */
  lemma RefusedMakesNothing(env: Env, m: Tree, p: Path)
    requires WF(m) && AllReal(p) && Locate(env, m, p, true).Refused?
    ensures FirstMade(env, m, p).None?
  {
    hide Walk;
    var u := Stub(env, m, p);
    if Locate(env, m, u, false).Missing? {
      NoLinkAtEnd(m, [], u, env.maxLinks);
      if u != p {
        assert p == u + p[|u|..];
        WalkBlocked(m, [], u, p[|u|..], env.maxLinks, true);
      }
    }
  }

  /** The file of an entry, once its directory has been seen to in w1. */
  lemma FileLands(env: Env, m: Tree, w1: World, p: Path, e: Entry, total: int, max: int)
    requires NoFault(env) && WF(m) && AllReal(p) && p != []
    requires var up, first := Parent(p), FirstMade(env, m, Parent(p));
      if Locate(env, m, up, true).Found? || Locate(env, m, up, true).Refused? then w1.nodes == m
      else first.Some? && first.value !in m && MadeFrom(m, w1.nodes, first.value, up[|Stub(env, m, up)|..])
    ensures var r, place := WriteEntry(env, w1, p, e, total, max), FileTouch(env, m, p);
      && ChangesAt(m, r.w.nodes, place)
      && (place.Some? && place.value in m ==>
            && m[place.value].File?
            && r.w.nodes[place.value] == File(Afford(e.body.pieces, total, max), m[place.value].perm))
  {
    hide Walk, Stub, WriteEntry;
    var up := Parent(p);
    WriteLands(env, w1, p, e, total, max);
    LookUp(env, m, up, true);
    if Locate(env, m, up, true).Refused? {
      assert p == up + [Last(p)];
      WalkBlocked(m, [], up, [Last(p)], env.maxLinks, true);
      RefusedMakesNothing(env, m, up);
    } else if !Locate(env, m, up, true).Found? {
      var q, u := FirstMade(env, m, up).value, Stub(env, m, up);
      var b := up[|u|..];
      NextName(env, m, w1.nodes, u, q, b, p, true);
      Ancestors(w1.nodes, q, q + b);
      NewFileBelow(m, w1.nodes, WriteEntry(env, w1, p, e, total, max).w.nodes, q, b, q + b + [Last(p)]);
    }
  }

  lemma NewFileBelow(m: Tree, m1: Tree, m2: Tree, q: Path, b: Path, e: Path)
    requires MadeFrom(m, m1, q, b) && q !in m && q in m1 && q <= e && e in m2 && m2 == m1[e := m2[e]]
    ensures ChangesAt(m, m2, Some(q))
  {
    forall x
      ensures q <= x || Get(m2, x) == Get(m, x)
    {
      assert x in m1 && x !in m ==> q <= x;
    }
  }

  lemma MadeChanges(m: Tree, m1: Tree, q: Path, b: Path)
    requires MadeFrom(m, m1, q, b) && q !in m
    ensures ChangesAt(m, m1, Some(q))
  {
    assert q <= q + b;
    Ancestors(m1, q, q + b);
  }

  // ------------------------------------------------------------------ one entry

  /** The destination is a real directory, and its text leads somewhere; what it contains does not
      matter. */
  ghost predicate Hosted(env: Env, job: Job, w: World) {
    && GoodJob(env, job) && WF(w.nodes) && IsDir(w.nodes, At(env, job.dst))
    && StatText(env, w, job.dst) != NotExist
  }

  /** The topmost place that extracting the entry changes: what a file entry writes; the
      directories a directory entry makes; and, in tar, the directory whose mode is set, which may
      be what a symlink leads to. */
  function Touch(env: Env, job: Job, m: Tree, e: Entry, tar: bool): Option<Path>
    requires GoodJob(env, job) && Contained(job, e)
  {
    EntryPlace(env, job, e);
    var p := At(env, PathOf(job, e));
    if e.kind.Regular? then FileTouch(env, m, p)
    else if tar && Locate(env, m, p, true).Found? && IsDir(m, Locate(env, m, p, true).path) then
      Some(Locate(env, m, p, true).path)
    else FirstMade(env, m, p)
  }

  /** What an entry puts in place of something: the bytes the budget lets through, or the mode. */
  function Replacement(job: Job, e: Entry, was: Node): Node {
    if e.kind.Regular? && was.File? then File(Afford(e.body.pieces, 0, job.limits.maxTotal), was.perm)
    else Dir(e.mode)
  }

  ghost predicate Lands(job: Job, m: Tree, m2: Tree, place: Option<Path>, e: Entry) {
    && ChangesAt(m, m2, place)
    && (place.Some? && place.value in m ==> m2[place.value] == Replacement(job, e, m[place.value]))
  }

  lemma TarFileLands(env: Env, job: Job, s: Tar, e: Entry)
    requires NoFault(env) && GoodJob(env, job) && WF(s.w.nodes) && Contained(job, e)
    requires e.kind.Regular? && s.ok && s.total == 0
    ensures var r := TarFile(env, job, s, e);
      r.seen == s.seen && Lands(job, s.w.nodes, r.w.nodes, Touch(env, job, s.w.nodes, e, true), e)
  {
    hide Walk, Locate, PlaceOf, Join, IsPathContained, WriteEntry, Chtimes, Stub, MkdirAll, MadeFrom;
    EntryPlace(env, job, e);
    var m, p := s.w.nodes, At(env, PathOf(job, e));
    var up := Parent(p);
    LookUp(env, m, up, true);
    MkdirAllLands(env, Tick(s.w), up, DIR_MODE);
    var dir := TarParent(env, s.w, up);
    if dir.ok {
      FileLands(env, m, dir.w, p, e, s.total, job.limits.maxTotal);
      ChtimesNodes(env, WriteEntry(env, dir.w, p, e, s.total, job.limits.maxTotal).w, p, TimesOf(job, e));
    } else {
      assert !Locate(env, m, up, true).Found?;
      assert dir.w.nodes == m;
    }
  }

  /** A directory entry, mode included. */
  lemma TarDirectoryLands(env: Env, job: Job, w: World, e: Entry)
    requires NoFault(env) && GoodJob(env, job) && WF(w.nodes) && Contained(job, e) && e.kind.Directory?
    ensures var p := At(env, PathOf(job, e));
      var made := MkdirAll(env, w, p, DIR_MODE);
      var place := Touch(env, job, w.nodes, e, true);
      if made.ok then Lands(job, w.nodes, Chmod(env, made.w, p, e.mode).w.nodes, place, e)
      else made.w.nodes == w.nodes && place.None?
  {
    hide Walk, Locate, PlaceOf, Join, IsPathContained, Stub;
    EntryPlace(env, job, e);
    var m, p := w.nodes, At(env, PathOf(job, e));
    MkdirAllLands(env, w, p, DIR_MODE);
    LookUp(env, m, p, true);
    var made := MkdirAll(env, w, p, DIR_MODE);
    if FirstMade(env, m, p).Some? {
      var q, u := FirstMade(env, m, p).value, Stub(env, m, p);
      MadeFound(env, m, made.w.nodes, u, q, p[|u|..], p);
      ChmodFound(env, made.w, p, e.mode);
      ModeBelow(m, made.w.nodes, q, p[|u|..], e.mode);
    } else if made.ok {
      ChmodFound(env, made.w, p, e.mode);
    }
  }

  lemma ChmodFound(env: Env, w: World, p: Path, mode: nat)
    requires NoFault(env)
    requires var r := Locate(env, w.nodes, p, true); r.Found? && IsDir(w.nodes, r.path)
    ensures Chmod(env, w, p, mode).w.nodes == w.nodes[Locate(env, w.nodes, p, true).path := Dir(mode)]
  {
    hide Locate;
  }

  /** The directories that were made are found by their path. */
  lemma MadeFound(env: Env, m: Tree, m2: Tree, u: Path, q: Path, b: Path, p: Path)
    requires WF(m) && AllReal(p) && u <= p && b == p[|u|..]
    requires Locate(env, m, u, false) == Missing(q) && q !in m && MadeFrom(m, m2, q, b)
    ensures var r := Locate(env, m2, p, true); r.Found? && r.path == q + b
  {
    hide Walk;
    Ancestors(m2, q, q + b);
    assert p == u + b;
    forall x | x in m2 && x <= q + b
      ensures !m2[x].Link?
    {
      Ancestors(m2, x, q + b);
    }
    WalkAfter(m, m2, [], u, q, b, env.maxLinks, true);
  }

  lemma ModeBelow(m: Tree, m1: Tree, q: Path, b: Path, mode: nat)
    requires MadeFrom(m, m1, q, b) && q !in m
    ensures ChangesAt(m, m1[q + b := Dir(mode)], Some(q))
  {
    MadeChanges(m, m1, q, b);
    assert q <= q + b;
    var m2 := m1[q + b := Dir(mode)];
    forall x
      ensures q <= x || Get(m2, x) == Get(m, x)
    {
      assert q <= x || Get(m1, x) == Get(m, x);
    }
  }

  // ------------------------------------------------------------------ one entry, one archive

  predicate TarAdmitted(job: Job, e: Entry) {
    && !e.kind.Extended? && Contained(job, e) && 1 <= job.limits.files
    && (e.kind.Regular? ==> e.size <= job.limits.maxEntry)
  }

  lemma DstFound(env: Env, job: Job, w: World)
    requires NoFault(env) && Hosted(env, job, w)
    ensures StatText(env, Tick(w), job.dst) != NotExist
  {
    hide Locate;
  }

  lemma OnlySeen(env: Env, job: Job, w: World, k: string, e: Entry, keys: seq<string>)
    requires NoFault(env) && Lists(keys, {k})
    ensures var c := Chmod(env, w, At(env, k), e.mode);
      TarDirs(env, job, w, map[k := e], keys).w.nodes == c.w.nodes
  {
    hide Walk, PlaceOf, Chmod, Chtimes;
    assert k in keys;
    ListLength(keys, {k});
    ChtimesNodes(env, Chmod(env, w, At(env, k), e.mode).w, At(env, k), TimesOf(job, e));
    assert keys[1..] == [];
  }

  /** A tar archive of one entry, fault-free, into an existing destination with any symlinks:
      what changes is the place the entry touches and what is made below it, and what it replaces
      gets the bytes or the mode of the entry. */
  lemma TarLands(env: Env, job: Job, w: World, e: Entry)
    requires NoFault(env) && FairListing(env) && Hosted(env, job, w) && TarAdmitted(job, e)
    ensures var r := TarExpand(env, job, w, Archive([e], false));
      Lands(job, w.nodes, r.w.nodes, Touch(env, job, w.nodes, e, true), e)
  {
    hide Walk, Locate, PlaceOf, Join, IsPathContained, TarFile, MkdirAll, Chmod, Touch, StatText;
    var w1, k := Tick(Tick(w)), PathOf(job, e);
    DstFound(env, job, w);
    var s := TarEntry(env, job, StartTar(w1), e);
    assert TarLoop(env, job, s, []) == s;
    assert TarLoop(env, job, StartTar(w1), [e]) == s;
    if e.kind.Regular? {
      TarFileLands(env, job, StartTar(w1).(headers := 1, files := 1), e);
      assert s.seen == map[];
      assert TarDirs(env, job, s.w, s.seen, env.order(s.seen.Keys)) == Outcome(s.w, true) by {
        NoDirs(env, job, s.w, env.order(s.seen.Keys));
      }
    } else {
      TarDirectoryLands(env, job, w1, e);
      if s.ok {
        assert s.seen == map[k := e] && s.seen.Keys == {k};
        OnlySeen(env, job, s.w, k, e, env.order({k}));
      }
    }
  }

  lemma {:induction false} NoDirs(env: Env, job: Job, w: World, keys: seq<string>)
    ensures TarDirs(env, job, w, map[], keys) == Outcome(w, true)
    decreases |keys|
  {
    if keys != [] {
      NoDirs(env, job, w, keys[1..]);
    }
  }

  /** What a change at one place means for a real directory d. */
  lemma WithinIff(m: Tree, m2: Tree, place: Option<Path>, d: Path)
    requires WF(m) && IsDir(m, d) && ChangesAt(m, m2, place)
    ensures Within(m, m2, d) <==> (place.Some? ==> d <= place.value || Get(m2, place.value) == Get(m, place.value))
  {
    if place.Some? {
      var q := place.value;
      if d <= q {
        forall x
          ensures d <= x || Get(m2, x) == Get(m, x)
        {
          assert q <= x || Get(m2, x) == Get(m, x);
          assert q <= x ==> d == q[..|d|] == x[..|d|];
        }
      } else {
        assert q < d ==> q in m by {
          if q < d {
            Ancestors(m, q, d);
          }
        }
        assert Within(m, m2, d) ==> d <= q || Get(m2, q) == Get(m, q) || (q < d && q !in m && IsDir(m2, q));
      }
    }
  }

  /** Whether the entry stays within the destination d, read off the tree it is extracted into: the
      place it touches, symlinks followed, is at or below d, or holds already what it puts there. */
  predicate StaysIn(job: Job, m: Tree, place: Option<Path>, e: Entry, d: Path) {
    place.Some? ==>
      d <= place.value || (place.value in m && m[place.value] == Replacement(job, e, m[place.value]))
  }

  lemma LandsIff(job: Job, m: Tree, m2: Tree, place: Option<Path>, e: Entry, d: Path)
    requires WF(m) && IsDir(m, d) && Lands(job, m, m2, place, e)
    ensures Within(m, m2, d) <==> StaysIn(job, m, place, e, d)
  {
    hide Within;
    WithinIff(m, m2, place, d);
  }

  /** The extraction stays within the destination exactly when its entry does: the lexical check
      alone does not say so. */
  lemma TarStaysIff(env: Env, job: Job, w: World, e: Entry)
    requires NoFault(env) && FairListing(env) && Hosted(env, job, w) && TarAdmitted(job, e)
    ensures Within(w.nodes, TarExpand(env, job, w, Archive([e], false)).w.nodes, At(env, job.dst)) <==>
      StaysIn(job, w.nodes, Touch(env, job, w.nodes, e, true), e, At(env, job.dst))
  {
    hide Walk, Locate, PlaceOf, Join, IsPathContained, TarExpand, Touch, Within, Lands, StaysIn;
    TarLands(env, job, w, e);
    LandsIff(job, w.nodes, TarExpand(env, job, w, Archive([e], false)).w.nodes,
      Touch(env, job, w.nodes, e, true), e, At(env, job.dst));
  }

  predicate ZipAdmitted(job: Job, e: Member) {
    Contained(job, e) && 1 <= job.limits.files && e.size <= job.limits.maxEntry
  }

  lemma ZipEntryLands(env: Env, job: Job, s: Zip, e: Member)
    requires NoFault(env) && GoodJob(env, job) && WF(s.w.nodes) && ZipAdmitted(job, e) && s.ok && s.total == 0
    ensures var r := ZipEntry(env, job, s, e);
      Lands(job, s.w.nodes, r.w.nodes, Touch(env, job, s.w.nodes, e, false), e)
  {
    hide Walk, Locate, PlaceOf, Join, IsPathContained, WriteEntry, Stub;
    EntryPlace(env, job, e);
    var m, p := s.w.nodes, At(env, PathOf(job, e));
    var dir := if e.kind.Directory? then p else Parent(p);
    LookUp(env, m, dir, true);
    MkdirAllLands(env, s.w, dir, job.umask);
    if Locate(env, m, dir, true).Refused? {
      RefusedMakesNothing(env, m, dir);
    }
    var made := MkdirAll(env, s.w, dir, job.umask);
    if e.kind.Directory? {
      if FirstMade(env, m, p).Some? {
        MadeChanges(m, made.w.nodes, FirstMade(env, m, p).value, p[|Stub(env, m, p)|..]);
      }
    } else if made.ok {
      FileLands(env, m, Touchless(env, made.w).w, p, e, s.total, job.limits.maxTotal);
    } else {
      ParentBlocks(env, m, p);
    }
  }

  /** Below what is not a directory no file can be written. */
  lemma ParentBlocks(env: Env, m: Tree, p: Path)
    requires WF(m) && AllReal(p) && p != [] && FirstMade(env, m, Parent(p)).None?
    requires var r := Locate(env, m, Parent(p), true); !(r.Found? && IsDir(m, r.path))
    ensures FileTouch(env, m, p).None?
  {
    hide Walk, FirstMade;
    var up := Parent(p);
    LookUp(env, m, up, true);
    if Locate(env, m, up, true).Found? {
      assert p == up + [Last(p)];
      WalkBlocked(m, [], up, [Last(p)], env.maxLinks, true);
    }
  }

  /** The same for a zip archive of one entry, which sets no mode of an existing directory. */
  lemma ZipLands(env: Env, job: Job, w: World, e: Member)
    requires NoFault(env) && Hosted(env, job, w) && ZipAdmitted(job, e)
    ensures Lands(job, w.nodes, ZipExpand(env, job, w, [e]).w.nodes, Touch(env, job, w.nodes, e, false), e)
  {
    hide Walk, Locate, PlaceOf, Join, IsPathContained, ZipEntry, Touch, StatText, Lands;
    var s := Zip(Tick(Tick(w)), 0, 0, true);
    DstFound(env, job, w);
    ZipEntryLands(env, job, s, e);
    var s1 := ZipEntry(env, job, s, e);
    assert ZipLoop(env, job, s1, []) == s1;
    assert ZipLoop(env, job, s, [e]) == s1;
  }

  lemma ZipStaysIff(env: Env, job: Job, w: World, e: Member)
    requires NoFault(env) && Hosted(env, job, w) && ZipAdmitted(job, e)
    ensures Within(w.nodes, ZipExpand(env, job, w, [e]).w.nodes, At(env, job.dst)) <==>
      StaysIn(job, w.nodes, Touch(env, job, w.nodes, e, false), e, At(env, job.dst))
  {
    hide Walk, Locate, PlaceOf, Join, IsPathContained, ZipExpand, Touch, Within, Lands, StaysIn;
    ZipLands(env, job, w, e);
    LandsIff(job, w.nodes, ZipExpand(env, job, w, [e]).w.nodes,
      Touch(env, job, w.nodes, e, false), e, At(env, job.dst));
  }
}
