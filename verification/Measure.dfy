/**
  GetDirectorySize of internal/helpers/helpers.go, and what it reports after an extraction.
 */
module Measure {
  import opened Paths
  import opened Os
  import opened Hosts
  import opened Archives
  import opened Confined
  import opened ExtractFrame
  import opened Frames
  import opened ExtractMeter
  import opened ExtractMeaning
  import opened ZipMeaning
  import opened UnpackResult

  /** The subtrees of the entries of p with the given names. */
  function PartOf(t: Skeleton, p: Path, names: seq<string>): Skeleton {
    map q | q in t && p < q && q[|p|] in names :: t[q]
  }

  lemma PartStep(t: Skeleton, p: Path, names: seq<string>, n: string)
    requires n !in names
    ensures Size(PartOf(t, p, names + [n])) == Size(PartOf(t, p, names)) + Size(Sub(t, p + [n]))
  {
    var a, b, c := PartOf(t, p, names), Sub(t, p + [n]), PartOf(t, p, names + [n]);
    forall q | q in t
      ensures q in c <==> q in a || q in b
      ensures !(q in a && q in b)
    {
      var d := p + [n];
      if d <= q {
        assert q[..|p|] == d[..|p|] == p && q[|p|] == d[|p|];
      }
      if p < q && q[|p|] == n {
        assert q[..|d|] == d;
      }
    }
    assert c == a + b;
    SizeOfUnion(a, b);
  }

  /** A file counts with its contents, a symlink with the text of its target. */
  lemma LeafSize(m: Tree, p: Path)
    requires WF(m) && p in m && !m[p].Dir? && p != []
    ensures Size(Sub(Shapes(m), p)) == if m[p].File? then |m[p].data| else |m[p].target|
  {
    var t := Sub(Shapes(m), p);
    forall q | q in t
      ensures q == p
    {
      NoneBelow(m, p, q);
    }
    assert t == map[p := ShapeOf(m[p])];
    SizeWithout(t, p);
    assert t - {p} == map[];
  }

  lemma DirSize(m: Tree, p: Path, names: seq<string>)
    requires WF(m) && IsDir(m, p)
    requires forall n :: p + [n] in m ==> n in names
    ensures Size(Sub(Shapes(m), p)) == Size(PartOf(Shapes(m), p, names))
  {
    var a, b := Sub(Shapes(m), p), PartOf(Shapes(m), p, names);
    forall q | q in m && p <= q && q != p
      ensures q in b
    {
      assert p + [q[|p|]] == q[..|p| + 1];
      Ancestors(m, p + [q[|p|]], q);
    }
    assert (a - {p}).Keys == b.Keys;
    assert a - {p} == b;
    SizeWithout(a, p);
  }

  lemma NoPart(t: Skeleton, p: Path)
    ensures Size(PartOf(t, p, [])) == 0
  {
    assert PartOf(t, p, []) == map[];
  }

  /** Lstat finds an entry of a real directory. */
  lemma EntryFound(env: Env, m: Tree, p: Path)
    requires WF(m) && AllReal(p) && (p == [] || Clear(m, Parent(p)))
    ensures var r := Locate(env, m, p, false);
      if p in m then r == Found(p, env.maxLinks) else !r.Found?
  {
    hide Walk;
    if p == [] {
      LocateClear(env, m, p, false);
    } else {
      LocateEntry(env, m, p);
    }
  }

  lemma ParentClear(m: Tree, p: Path)
    requires WF(m) && p in m && p != []
    ensures Clear(m, Parent(p))
  {
    forall q | q in m && q <= Parent(p)
      ensures !m[q].Link?
    {
      Ancestors(m, q, Parent(p));
    }
  }

  /** The walk adds up, in any listing order, exactly the sizes of what is at and below dir; a
      symlink counts with the length of its target and is not followed.  It changes nothing, and
      without a fault it fails only if dir does not exist. */
  method GetDirectorySize(h: Host, dir: Path) returns (ok: bool, size: nat)
    requires FairListing(h.env) && WF(h.w.nodes) && AllReal(dir) && (dir == [] || Clear(h.w.nodes, Parent(dir)))
    modifies h
    ensures h.w.nodes == old(h.w.nodes)
    ensures ok ==> dir in h.w.nodes && size == Size(Sub(Shapes(h.w.nodes), dir))
    ensures ok && h.w.nodes[dir].File? ==> size == |h.w.nodes[dir].data|
    ensures ok && h.w.nodes[dir].Link? ==> size == |h.w.nodes[dir].target|
    ensures NoFault(h.env) ==> (ok <==> dir in h.w.nodes)
  {
    hide Walk, Sub, Size;
    size := 0;
    EntryFound(h.env, h.w.nodes, dir);
    var info := h.Lstat(dir);
    if info.None? {
      return false, 0;
    }
    ok, size := WalkDir(h, dir, info.value, 0);
    if !h.w.nodes[dir].Dir? {
      LeafSize(h.w.nodes, dir);
    }
  }

  method WalkDir(h: Host, path: Path, info: Node, size: nat) returns (ok: bool, total: nat)
    requires FairListing(h.env) && WF(h.w.nodes) && AllReal(path)
    requires Get(h.w.nodes, path) == Some(info)
    modifies h
    ensures h.w.nodes == old(h.w.nodes)
    ensures ok ==> total == size + Size(Sub(Shapes(h.w.nodes), path))
    ensures NoFault(h.env) ==> ok
    decreases Below(h.w.nodes, path)
  {
    hide Walk, PartOf, Sub, Size;
    total := size;
    if !info.Dir? {
      assert path != [];
      LeafSize(h.w.nodes, path);
      return true, size + (if info.File? then |info.data| else |info.target|);
    }
    ghost var m := h.w.nodes;
    var names;
    ok, names := h.ReadDir(path);
    if !ok {
      return;
    }
    ListingReal(h.env, m, path);
    var i := 0;
    NoPart(Shapes(m), path);
    assert names[..0] == [];
    while i < |names|
      invariant 0 <= i <= |names|
      invariant h.w.nodes == m
      invariant total == size + Size(PartOf(Shapes(m), path, names[..i]))
    {
      var child := path + [names[i]];
      assert names[i] in names;
      BelowShrinks(m, path, names[i]);
      PartStep(Shapes(m), path, names[..i], names[i]);
      assert names[..i + 1] == names[..i] + [names[i]];
      assert Parent(child) == path;
      ParentClear(m, child);
      EntryFound(h.env, m, child);
      var childInfo := h.Lstat(child);
      if childInfo.None? {
        return false, total;
      }
      ok, total := WalkDir(h, child, childInfo.value, total);
      if !ok {
        return;
      }
      i := i + 1;
    }
    assert names[..i] == names;
    DirSize(m, path, names);
    ok := true;
  }

  /** After a successful extraction into a fresh destination, by either expander, the measured
      size is at most the counter, which is at most the archive-wide limit, even when entries
      overwrite one another; it is the counter when file entries name different places. */
  lemma MeasuredSizeIsBounded(env: Env, job: Job, w: World, archive: Archive, c: nat)
    requires Sound(env, job, w.nodes) && At(env, job.dst) !in w.nodes && Resolved(job.limits)
    requires AllChunked(archive.entries, c) && Roomy(job, c, 0, SumBodies(archive.entries))
    ensures var d, t := At(env, job.dst), TarExpand(env, job, w, archive);
      t.ok ==>
        && Size(Sub(Shapes(t.w.nodes), d)) <= t.total <= job.limits.maxTotal
        && (Separate(env, job, Shapes(w.nodes), archive.entries) ==> Size(Sub(Shapes(t.w.nodes), d)) == t.total)
  {
    hide Walk, PlaceOf, Join, IsPathContained, Unpack, Untar, Stat, Tally;
    UntarMeaning(env, job, Tick(Tick(w)), archive);
    BudgetHolds(env, job, w, archive, c);
    UnpackedSize(env, job, w.nodes, archive.entries);
  }

  lemma ZipMeasuredSizeIsBounded(env: Env, job: Job, w: World, entries: seq<Member>, c: nat)
    requires Sound(env, job, w.nodes) && At(env, job.dst) !in w.nodes && Resolved(job.limits)
    requires AllChunked(entries, c) && Roomy(job, c, 0, SumBodies(entries))
    ensures var d, z := At(env, job.dst), ZipExpand(env, job, w, entries);
      z.ok ==>
        && Size(Sub(Shapes(z.w.nodes), d)) <= z.total <= job.limits.maxTotal
        && (Separate(env, job, Shapes(w.nodes), entries) ==> Size(Sub(Shapes(z.w.nodes), d)) == z.total)
  {
    hide Walk, PlaceOf, Join, IsPathContained, Unpack, Unzip, Stat, Tally;
    UnzipMeaning(env, job, Tick(Tick(w)), entries);
    ZipBudgetHolds(env, job, w, entries, c);
    UnpackedSize(env, job, w.nodes, entries);
  }

  /** The size of what is unpacked into an absent destination. */
  lemma UnpackedSize(env: Env, job: Job, m: Tree, entries: seq<Entry>)
    requires Sound(env, job, m) && At(env, job.dst) !in m
    ensures var d, t, u := At(env, job.dst), Shapes(m), Unpack(env, job, Shapes(m), entries);
      u.Some? ==>
        && Size(Sub(u.value, d)) <= SumBodies(entries)
        && (Separate(env, job, t, entries) ==> Size(Sub(u.value, d)) == SumBodies(entries))
  {
    hide Walk, PlaceOf, Join, IsPathContained, Unpack;
    var t, d := Shapes(m), At(env, job.dst);
    AbsentBelow(m, d);
    assert Sub(t, d) == map[];
    if Unpack(env, job, t, entries).Some? {
      UnpackSize(env, job, t, entries);
      if Separate(env, job, t, entries) {
        UnpackSizeExact(env, job, t, entries);
      }
    }
  }
}
