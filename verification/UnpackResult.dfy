/**
  What unpacking amounts to, entry order and repetitions included, and how large it is.
 */
module UnpackResult {
  import opened Paths
  import opened Os
  import opened Budget
  import opened Archives
  import opened ExtractMeter
  import opened ExtractMeaning

  // ------------------------------------------------------------------ names and contents

  /** The contents of the last file entry for place p. */
  function LastBody(env: Env, job: Job, entries: seq<Entry>, p: Path): Option<Bytes> {
    if entries == [] then None
    else
      var later := LastBody(env, job, entries[1..], p);
      if later.Some? then later
      else if entries[0].kind.Regular? && At(env, PathOf(job, entries[0])) == p then Some(Flat(entries[0].body.pieces))
      else None
  }

  /** The directories the entries call for. */
  function FoldersOf(env: Env, job: Job, entries: seq<Entry>): set<Path> {
    if entries == [] then {}
    else
      var e, p := entries[0], At(env, PathOf(job, entries[0]));
      (if e.kind.Extended? || p == [] then {} else if e.kind.Directory? then Ways(p) else Ways(Parent(p)))
      + FoldersOf(env, job, entries[1..])
  }

  function Look(t: Skeleton, p: Path): Option<Shape> {
    if p in t then Some(t[p]) else None
  }

  /** The unpacked tree in closed form: at each place the last file entry for it wins; otherwise
      what was there stays; otherwise there is a directory if an entry called for one. */
  lemma {:induction false} UnpackIs(env: Env, job: Job, t: Skeleton, entries: seq<Entry>, p: Path)
    requires Unpack(env, job, t, entries).Some?
    ensures Look(Unpack(env, job, t, entries).value, p) ==
      var last := LastBody(env, job, entries, p);
      if last.Some? then Some(Content(last.value))
      else if p in t then Some(t[p])
      else if p in FoldersOf(env, job, entries) then Some(Folder)
      else None
    decreases |entries|
  {
    hide PlaceOf, Join, IsPathContained;
    if entries != [] {
      UnpackIs(env, job, UnpackOne(env, job, t, entries[0]).value, entries[1..], p);
    }
  }

  // ------------------------------------------------------------------ sizes

  function Weight(s: Shape): nat {
    match s
    case Content(data) => |data|
    case Folder => 0
    case Alias(target) => |target|
  }

  ghost function Pick(t: Skeleton): Path
    requires t != map[]
  {
    var p :| p in t; p
  }

  /** The sum of the sizes of everything in the tree. */
  ghost function Size(t: Skeleton): nat
    decreases |t|
  {
    if t == map[] then 0 else Weight(t[Pick(t)]) + Size(t - {Pick(t)})
  }

  lemma {:induction false} SizeWithout(t: Skeleton, p: Path)
    requires p in t
    ensures Size(t) == Weight(t[p]) + Size(t - {p})
    decreases |t|
  {
    var q := Pick(t);
    if q != p {
      SizeWithout(t - {q}, p);
      SizeWithout(t - {p}, q);
      assert t - {q} - {p} == t - {p} - {q};
    }
  }

  lemma SizeUpdate(t: Skeleton, p: Path, s: Shape)
    ensures Size(t[p := s]) == Size(t - {p}) + Weight(s)
  {
    SizeWithout(t[p := s], p);
    assert t[p := s] - {p} == t - {p};
  }

  lemma {:induction false} SizeOfUnion(a: Skeleton, b: Skeleton)
    requires a.Keys !! b.Keys
    ensures Size(a + b) == Size(a) + Size(b)
    decreases |b|
  {
    if b == map[] {
      assert a + b == a;
    } else {
      var p := Pick(b);
      var rest := b - {p};
      UnionStep(a, b, p);
      SizeOfUnion(a, rest);
    }
  }

  lemma UnionStep(a: Skeleton, b: Skeleton, p: Path)
    requires a.Keys !! b.Keys && p in b
    ensures a.Keys !! (b - {p}).Keys
    ensures Size(a + b) == Weight(b[p]) + Size(a + (b - {p}))
    ensures Size(b) == Weight(b[p]) + Size(b - {p})
  {
    SizeWithout(b, p);
    SizeWithout(a + b, p);
    assert (a + b) - {p} == a + (b - {p});
  }

  /** The part of the tree at and below d. */
  function Sub(t: Skeleton, d: Path): Skeleton {
    map p | p in t && d <= p :: t[p]
  }

  lemma {:induction false} SizeZero(t: Skeleton)
    requires forall p :: p in t ==> t[p].Folder?
    ensures Size(t) == 0
    decreases |t|
  {
    if t != map[] {
      SizeZero(t - {Pick(t)});
    }
  }

  /** New directories weigh nothing. */
  lemma AddDirsSize(t: Skeleton, p: Path, d: Path)
    ensures Size(Sub(AddDirs(t, p), d)) == Size(Sub(t, d))
  {
    var a, b := Sub(t, d), Sub(AddDirs(t, p), d);
    var new_ := map q | q in b && q !in a :: b[q];
    assert b == a + new_;
    SizeOfUnion(a, new_);
    SizeZero(new_);
  }

  /** A file entry adds its length, less what it overwrites. */
  lemma FileSize(t: Skeleton, p: Path, d: Path, data: Bytes)
    requires d <= p
    ensures Size(Sub(t[p := Content(data)], d)) <= Size(Sub(t, d)) + |data|
    ensures p !in t ==> Size(Sub(t[p := Content(data)], d)) == Size(Sub(t, d)) + |data|
  {
    var a := Sub(t, d);
    assert Sub(t[p := Content(data)], d) == a[p := Content(data)];
    SizeUpdate(a, p, Content(data));
    if p in t {
      SizeWithout(a, p);
    } else {
      assert a - {p} == a;
    }
  }

  /** Unpacking adds at most the lengths of its entries, even when entries overwrite one another. */
  lemma {:induction false} UnpackSize(env: Env, job: Job, t: Skeleton, entries: seq<Entry>)
    requires GoodJob(env, job) && Unpack(env, job, t, entries).Some?
    ensures var d := At(env, job.dst);
      Size(Sub(Unpack(env, job, t, entries).value, d)) <= Size(Sub(t, d)) + SumBodies(entries)
    decreases |entries|
  {
    hide PlaceOf, Join, IsPathContained;
    if entries != [] {
      UnpackOneSize(env, job, t, entries[0]);
      UnpackSize(env, job, UnpackOne(env, job, t, entries[0]).value, entries[1..]);
    }
  }

  lemma UnpackOneSize(env: Env, job: Job, t: Skeleton, e: Entry)
    requires GoodJob(env, job) && UnpackOne(env, job, t, e).Some?
    ensures var d, t1, p := At(env, job.dst), UnpackOne(env, job, t, e).value, At(env, PathOf(job, e));
      && Size(Sub(t1, d)) <= Size(Sub(t, d)) + BodyOf(e)
      && ((e.kind.Regular? ==> p !in t) ==> Size(Sub(t1, d)) == Size(Sub(t, d)) + BodyOf(e))
  {
    hide PlaceOf, Join, IsPathContained;
    var d, p := At(env, job.dst), At(env, PathOf(job, e));
    if !e.kind.Extended? {
      EntryPlace(env, job, e);
      if e.kind.Directory? {
        AddDirsSize(t, p, d);
      } else {
        AddDirsSize(t, Parent(p), d);
        FlatTotal(e.body.pieces);
        WaysArePrefixes(Parent(p));
        FileSize(AddDirs(t, Parent(p)), p, d, Flat(e.body.pieces));
      }
    }
  }

  /** The file entries name different places, and none where a file is. */
  ghost predicate Separate(env: Env, job: Job, t: Skeleton, entries: seq<Entry>) {
    && (forall i :: 0 <= i < |entries| && entries[i].kind.Regular? ==>
          var p := At(env, PathOf(job, entries[i])); p in t ==> t[p].Folder?)
    && (forall i, j :: 0 <= i < j < |entries| && entries[i].kind.Regular? && entries[j].kind.Regular? ==>
          At(env, PathOf(job, entries[i])) != At(env, PathOf(job, entries[j])))
  }

  /** And exactly their lengths when they do not. */
  lemma {:induction false} UnpackSizeExact(env: Env, job: Job, t: Skeleton, entries: seq<Entry>)
    requires GoodJob(env, job) && Unpack(env, job, t, entries).Some? && Separate(env, job, t, entries)
    ensures var d := At(env, job.dst);
      Size(Sub(Unpack(env, job, t, entries).value, d)) == Size(Sub(t, d)) + SumBodies(entries)
    decreases |entries|
  {
    hide PlaceOf, Join, IsPathContained;
    if entries != [] {
      UnpackOneSize(env, job, t, entries[0]);
      SeparateStep(env, job, t, entries);
      UnpackSizeExact(env, job, UnpackOne(env, job, t, entries[0]).value, entries[1..]);
    }
  }

  lemma SeparateStep(env: Env, job: Job, t: Skeleton, entries: seq<Entry>)
    requires entries != [] && UnpackOne(env, job, t, entries[0]).Some? && Separate(env, job, t, entries)
    ensures entries[0].kind.Regular? ==> At(env, PathOf(job, entries[0])) !in t
    ensures Separate(env, job, UnpackOne(env, job, t, entries[0]).value, entries[1..])
  {
    hide PlaceOf, Join, IsPathContained, Flat;
    var t1, p0 := UnpackOne(env, job, t, entries[0]).value, At(env, PathOf(job, entries[0]));
    forall i | 0 <= i < |entries[1..]| && entries[1..][i].kind.Regular?
      ensures var p := At(env, PathOf(job, entries[1..][i])); p in t1 ==> t1[p].Folder?
    {
      assert entries[1..][i] == entries[i + 1];
    }
  }
}
