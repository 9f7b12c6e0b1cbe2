/**
  The zip expander against the same definition of unpacking as tar's, and the two against each
  other.
 */
module ZipMeaning {
  import opened Paths
  import opened Os
  import opened Budget
  import opened Archives
  import opened ExtractFrame
  import opened ExtractMeter
  import opened ExtractMeaning

  /** Zip applies the per-entry limit to directories too. */
  predicate SmallDirectories(job: Job, entries: seq<Entry>) {
    forall i :: 0 <= i < |entries| && entries[i].kind.Directory? ==> entries[i].size <= job.limits.maxEntry
  }

  lemma ZipFileMeaning(env: Env, job: Job, s: Zip, e: Member)
    requires Sound(env, job, s.w.nodes) && Contained(job, e) && e.kind.Regular? && s.ok
    requires Running(s.total, job.limits.maxTotal)
    ensures var r, u := ZipFile(env, job, s, e), UnpackOne(env, job, Shapes(s.w.nodes), e);
      var spent := SpendOn(e, s.total, job.limits.maxTotal);
      && (r.ok ==> u == Some(Shapes(r.w.nodes)) && spent == Spent(r.total, true))
      && (NoFault(env) ==> (r.ok <==> u.Some? && !e.body.broken && spent.ok))
  {
    hide Walk, PlaceOf, Join, IsPathContained, UnpackOne, WriteEntry, SpendOn;
    EntryPlace(env, job, e);
    var m, p := s.w.nodes, At(env, PathOf(job, e));
    ClearBelow(m, At(env, job.dst), Parent(p));
    MkdirAllEffect(env, s.w, Parent(p), job.umask);
    var dir := MkdirAll(env, s.w, Parent(p), job.umask);
    var src := Touchless(env, dir.w);
    WriteMeaning(env, job, m, src.w, e, env.masked(job.umask), s.total);
  }

  lemma ZipEntryMeaning(env: Env, job: Job, s: Zip, e: Member)
    requires Sound(env, job, s.w.nodes) && s.ok && Running(s.total, job.limits.maxTotal)
    ensures var r, u := ZipEntry(env, job, s, e), UnpackOne(env, job, Shapes(s.w.nodes), e);
      var spent := SpendOn(e, s.total, job.limits.maxTotal);
      && (r.ok ==> u == Some(Shapes(r.w.nodes)) && spent == Spent(r.total, true))
      && (NoFault(env) ==>
            (r.ok <==> u.Some? && e.size <= job.limits.maxEntry && (e.kind.Regular? ==> !e.body.broken) && spent.ok))
  {
    hide Walk, PlaceOf, Join, IsPathContained, Spend, WriteEntry;
    if Contained(job, e) {
      EntryPlace(env, job, e);
      if e.kind.Directory? {
        MkdirMeaning(env, job, s.w, e, job.umask);
      } else {
        ZipFileMeaning(env, job, s, e);
      }
    }
  }

  lemma {:induction false} ZipLoopMeaning(env: Env, job: Job, s: Zip, entries: seq<Member>, files: nat)
    requires Sound(env, job, s.w.nodes) && s.ok && Running(s.total, job.limits.maxTotal)
    requires files + |entries| <= job.limits.files
    ensures var r, u := ZipLoop(env, job, s, entries), Unpack(env, job, Shapes(s.w.nodes), entries);
      && (r.ok ==> u == Some(Shapes(r.w.nodes)) && Tally(entries, s.total, job.limits.maxTotal) == Spent(r.total, true))
      && (NoFault(env) ==>
            (r.ok <==>
               && Acceptable(env, job, Shapes(s.w.nodes), files, s.total, entries)
               && SmallDirectories(job, entries)))
    decreases |entries|
  {
    hide Walk, PlaceOf, Join, IsPathContained, UnpackOne, ZipEntry, SpendOn;
    if entries != [] {
      var e := entries[0];
      ZipEntryFrame(env, job, s, e);
      ZipEntryMeaning(env, job, s, e);
      DirectoriesStep(job, entries);
      AcceptableStep(env, job, Shapes(s.w.nodes), files, s.total, entries);
      var s1 := ZipEntry(env, job, s, e);
      if s1.ok {
        SpendOnRuns(e, s.total, job.limits.maxTotal);
        ZipLoopMeaning(env, job, s1, entries[1..], files + 1);
      }
    }
  }

  lemma DirectoriesStep(job: Job, entries: seq<Entry>)
    requires entries != []
    ensures SmallDirectories(job, entries) <==>
      (entries[0].kind.Directory? ==> entries[0].size <= job.limits.maxEntry) && SmallDirectories(job, entries[1..])
  {
    if SmallDirectories(job, entries[1..]) && (entries[0].kind.Directory? ==> entries[0].size <= job.limits.maxEntry) {
      forall i | 0 <= i < |entries| && entries[i].kind.Directory?
        ensures entries[i].size <= job.limits.maxEntry
      {
        if i > 0 {
          assert entries[i] == entries[1..][i - 1];
        }
      }
    }
  }

  lemma {:induction false} CountAll(entries: seq<Member>)
    ensures Count(entries) == |entries|
  {
    if entries != [] {
      CountAll(entries[1..]);
    }
  }

  lemma UnzipMeaning(env: Env, job: Job, w: World, entries: seq<Member>)
    requires Sound(env, job, w.nodes) && Resolved(job.limits)
    ensures var r, u := Unzip(env, job, w, entries), Unpack(env, job, Shapes(w.nodes), entries);
      && (r.ok ==> u == Some(Shapes(r.w.nodes)) && Tally(entries, 0, job.limits.maxTotal) == Spent(r.total, true))
      && (NoFault(env) ==>
            (r.ok <==> Acceptable(env, job, Shapes(w.nodes), 0, 0, entries) && SmallDirectories(job, entries)))
  {
    hide Walk, PlaceOf, Join, IsPathContained, UnpackOne, ZipEntry, Unpack, Tally;
    CountAll(entries);
    if |entries| <= job.limits.files {
      ZipLoopMeaning(env, job, Zip(w, 0, 0, true), entries, 0);
    }
  }

  /** Tar and zip agree.  On the same non-empty list without extended headers, with directory
      sizes within the per-entry limit, fault-free: both succeed on exactly the same inputs, and
      leave the same names and contents everywhere; so counting the entries up front and counting
      them one by one are equivalent. */
  lemma TarZipAgree(env: Env, job: Job, w: World, entries: seq<Member>)
    requires Sound(env, job, w.nodes) && NoFault(env) && Resolved(job.limits)
    requires entries != [] && SmallDirectories(job, entries)
    ensures var t, z := TarExpand(env, job, w, Archive(entries, false)), ZipExpand(env, job, w, entries);
      && t.ok == z.ok
      && (t.ok ==> Shapes(t.w.nodes) == Shapes(z.w.nodes) && t.total == z.total)
  {
    hide Walk, PlaceOf, Join, IsPathContained, Unpack, Untar, Unzip, Tally;
    UntarMeaning(env, job, Tick(Tick(w)), Archive(entries, false));
    UnzipMeaning(env, job, Tick(Tick(w)), entries);
  }
}
