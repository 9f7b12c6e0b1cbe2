/**
  The archive-wide budget over a whole extraction: what reaches files, what the counter says, and
  what the list of entries costs.
 */
module ExtractMeter {
  import opened Paths
  import opened Os
  import opened Budget
  import opened Archives

  /** The bytes an entry brings. */
  function BodyOf(e: Entry): nat {
    if e.kind.Regular? then Total(e.body.pieces) else 0
  }

  function SumBodies(entries: seq<Entry>): nat {
    if entries == [] then 0 else BodyOf(entries[0]) + SumBodies(entries[1..])
  }

  ghost predicate AllChunked(entries: seq<Entry>, c: nat) {
    forall i :: 0 <= i < |entries| ==> Chunked(entries[i].body.pieces, c)
  }

  /** The counter cannot wrap on what is still to come: the limit leaves room for one piece, or
      all of it is within 64 bits. */
  ghost predicate Roomy(job: Job, c: nat, total: int, more: nat) {
    0 <= total <= job.limits.maxTotal && (job.limits.maxTotal + c <= MAX_INT64 || total + more <= MAX_INT64)
  }

  /** The bytes that reached files are within the limit, and the counter is exact while the
      extraction runs, and at most one piece ahead when it has stopped. */
  ghost predicate Metered(total: int, landed: nat, ok: bool, max: int, c: nat) {
    && landed <= max && landed <= total <= landed + c
    && (ok ==> total == landed)
  }

  // ------------------------------------------------------------------ bytes and counter

  lemma WriteMeter(env: Env, w: World, at: Path, e: Entry, total: int, max: int, c: nat)
    requires Fits(total, max, c, Total(e.body.pieces)) && Chunked(e.body.pieces, c)
    ensures var r := WriteEntry(env, w, at, e, total, max);
      && total + r.landed <= max
      && total + r.landed <= r.counter <= total + r.landed + c
      && (r.ok ==> r.counter == total + Total(e.body.pieces) == total + r.landed)
  {
    hide Locate, Feed;
    var o := OpenFile(env, w, at, e.mode);
    if o.file.Some? {
      FeedEffect(env, o.w, o.file.value, e.body.pieces, total, max, c);
    }
  }

  /** One entry: a file entry that is written adds its length. */
  lemma TarEntryMeter(env: Env, job: Job, s: Tar, e: Entry, c: nat)
    requires s.ok && Chunked(e.body.pieces, c) && Roomy(job, c, s.total, BodyOf(e))
    requires Metered(s.total, s.landed, true, job.limits.maxTotal, c)
    ensures var r := TarEntry(env, job, s, e);
      Metered(r.total, r.landed, r.ok, job.limits.maxTotal, c) && (r.ok ==> r.total == s.total + BodyOf(e))
  {
    hide Locate, Join, PlaceOf, IsPathContained, WriteEntry, MkdirAll, TarParent, Chtimes;
    if e.kind.Regular? {
      var dir := TarParent(env, s.w, At(env, DirOf(PathOf(job, e))));
      WriteMeter(env, dir.w, At(env, PathOf(job, e)), e, s.total, job.limits.maxTotal, c);
    }
  }

  lemma {:induction false} TarLoopMeter(env: Env, job: Job, s: Tar, entries: seq<Entry>, c: nat)
    requires s.ok && AllChunked(entries, c) && Roomy(job, c, s.total, SumBodies(entries))
    requires Metered(s.total, s.landed, true, job.limits.maxTotal, c)
    ensures var r := TarLoop(env, job, s, entries);
      Metered(r.total, r.landed, r.ok, job.limits.maxTotal, c) && (r.ok ==> r.total == s.total + SumBodies(entries))
    decreases |entries|
  {
    hide TarEntry;
    if entries != [] {
      TarEntryMeter(env, job, s, entries[0], c);
      var s1 := TarEntry(env, job, s, entries[0]);
      if s1.ok {
        TarLoopMeter(env, job, s1, entries[1..], c);
      }
    }
  }

  lemma ZipEntryMeter(env: Env, job: Job, s: Zip, e: Member, c: nat)
    requires s.ok && Chunked(e.body.pieces, c) && Roomy(job, c, s.total, BodyOf(e))
    requires Metered(s.total, s.landed, true, job.limits.maxTotal, c)
    ensures var r := ZipEntry(env, job, s, e);
      Metered(r.total, r.landed, r.ok, job.limits.maxTotal, c) && (r.ok ==> r.total == s.total + BodyOf(e))
  {
    hide Locate, Join, PlaceOf, IsPathContained, WriteEntry, MkdirAll;
    if !e.kind.Directory? {
      var dir := MkdirAll(env, s.w, At(env, DirOf(PathOf(job, e))), job.umask);
      WriteMeter(env, Touchless(env, dir.w).w, At(env, PathOf(job, e)), e, s.total, job.limits.maxTotal, c);
    }
  }

  lemma {:induction false} ZipLoopMeter(env: Env, job: Job, s: Zip, entries: seq<Member>, c: nat)
    requires s.ok && AllChunked(entries, c) && Roomy(job, c, s.total, SumBodies(entries))
    requires Metered(s.total, s.landed, true, job.limits.maxTotal, c)
    ensures var r := ZipLoop(env, job, s, entries);
      Metered(r.total, r.landed, r.ok, job.limits.maxTotal, c) && (r.ok ==> r.total == s.total + SumBodies(entries))
    decreases |entries|
  {
    hide ZipEntry;
    if entries != [] {
      ZipEntryMeter(env, job, s, entries[0], c);
      var s1 := ZipEntry(env, job, s, entries[0]);
      if s1.ok {
        ZipLoopMeter(env, job, s1, entries[1..], c);
      }
    }
  }

  /** Over any list of entries, cut into pieces in any way, with any faults and any symlinks: the
      bytes that reach files never exceed the archive-wide limit; the counter equals them on
      success, and is ahead of them by at most one piece otherwise. */
  lemma BudgetHolds(env: Env, job: Job, w: World, archive: Archive, c: nat)
    requires AllChunked(archive.entries, c) && Roomy(job, c, 0, SumBodies(archive.entries))
    ensures var t := TarExpand(env, job, w, archive);
      Metered(t.total, t.landed, t.ok, job.limits.maxTotal, c) && (t.ok ==> t.total == SumBodies(archive.entries))
  {
    hide Stat, PlaceOf, TarLoop, TarDirs;
    TarLoopMeter(env, job, StartTar(Tick(Tick(w))), archive.entries, c);
  }

  lemma ZipBudgetHolds(env: Env, job: Job, w: World, entries: seq<Member>, c: nat)
    requires AllChunked(entries, c) && Roomy(job, c, 0, SumBodies(entries))
    ensures var z := ZipExpand(env, job, w, entries);
      Metered(z.total, z.landed, z.ok, job.limits.maxTotal, c) && (z.ok ==> z.total == SumBodies(entries))
  {
    hide Stat, PlaceOf, ZipLoop;
    ZipLoopMeter(env, job, Zip(Tick(Tick(w)), 0, 0, true), entries, c);
  }

  // ------------------------------------------------------------------ what a list costs

  /** What the file entries of a list spend of the budget, one after the other, in 64-bit
      arithmetic. */
  function Tally(entries: seq<Entry>, counter: int, max: int): Spent {
    if entries == [] then Spent(counter, true)
    else
      var s := SpendOn(entries[0], counter, max);
      if s.ok then Tally(entries[1..], s.counter, max) else s
  }

  function SpendOn(e: Entry, counter: int, max: int): Spent {
    if e.kind.Regular? then Spend(Lengths(e.body.pieces), counter, max) else Spent(counter, true)
  }

  /** A list is affordable exactly when its total length is, and then the counter is that length,
      if the limit leaves room for one piece or the total is within 64 bits. */
  lemma {:induction false} TallyIsSum(entries: seq<Entry>, counter: int, max: int, c: nat)
    requires 0 <= counter <= max
    requires (max + c <= MAX_INT64 && AllChunked(entries, c)) || counter + SumBodies(entries) <= MAX_INT64
    ensures var s := Tally(entries, counter, max);
      && (s.ok <==> counter + SumBodies(entries) <= max)
      && (s.ok ==> s.counter == counter + SumBodies(entries))
  {
    if entries != [] {
      var e := entries[0];
      if e.kind.Regular? {
        SpendTotal(e.body.pieces, counter, max, c);
      }
      var s := SpendOn(e, counter, max);
      if s.ok {
        TallyIsSum(entries[1..], s.counter, max, c);
      }
    }
  }

  /** A disabled limit affords every list. */
  lemma {:induction false} TallyDisabled(entries: seq<Entry>, counter: int, configured: Int64, def: Int64)
    requires configured < 0
    ensures Tally(entries, counter, EffectiveSize(configured, def)).ok
  {
    if entries != [] {
      var e := entries[0];
      if e.kind.Regular? {
        DisabledNeverRejects(Lengths(e.body.pieces), counter, configured, def);
      }
      TallyDisabled(entries[1..], SpendOn(e, counter, EffectiveSize(configured, def)).counter, configured, def);
    }
  }

  lemma SpendOnRuns(e: Entry, counter: int, max: int)
    requires Running(counter, max) && SpendOn(e, counter, max).ok
    ensures Running(SpendOn(e, counter, max).counter, max)
  {
    if e.kind.Regular? {
      SpendRuns(Lengths(e.body.pieces), counter, max);
    }
  }
}
