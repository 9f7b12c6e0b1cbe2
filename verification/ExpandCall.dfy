/**
  The calls of Expand of the tar and zip expanders, from the opening of the archive on, in terms of
  their arguments and the options of the expander.
 */
module ExpandCall {
  import opened Paths
  import opened Os
  import opened Budget
  import opened Archives
  import opened ExtractFrame
  import opened ExtractMeter
  import opened ExtractMeaning
  import opened ZipMeaning
  import opened Deferred
  import opened ExtractModes

  /** The declared sizes, the number of entries and the bytes together are within the options. */
  predicate WithinOptions(o: Options, entries: seq<Entry>) {
    && Allows(o.filesLimit, 10000, Count(entries))
    && (forall i :: 0 <= i < |entries| && entries[i].kind.Regular? ==>
          Allows(o.maxEntrySize, 524288000, entries[i].size))
    && Allows(o.maxTotalSize, 1073741824, SumBodies(entries))
  }

  predicate Whole(entries: seq<Entry>) {
    forall i :: 0 <= i < |entries| && entries[i].kind.Regular? ==> !entries[i].body.broken
  }

  lemma {:induction false} ReadableIs(job: Job, entries: seq<Entry>)
    ensures Readable(job, entries) <==>
      forall i :: 0 <= i < |entries| && entries[i].kind.Regular? ==>
        entries[i].size <= job.limits.maxEntry && !entries[i].body.broken
  {
    if entries != [] {
      ReadableIs(job, entries[1..]);
      if Readable(job, entries) {
        forall i | 0 <= i < |entries| && entries[i].kind.Regular?
          ensures entries[i].size <= job.limits.maxEntry && !entries[i].body.broken
        {
          assert i > 0 ==> entries[i] == entries[1..][i - 1];
        }
      }
      assert forall i :: 0 <= i < |entries[1..]| ==> entries[1..][i] == entries[i + 1];
    }
  }

  /** What the limits that the options stand for accept. */
  lemma AcceptableByOptions(env: Env, dst: string, options: Options, now: int, umask: nat, m: Tree, entries: seq<Entry>)
    requires SumBodies(entries) <= MAX_INT64
    ensures var job := Job(dst, Effective(options), now, umask);
      Acceptable(env, job, Shapes(m), 0, 0, entries) <==>
        Unpack(env, job, Shapes(m), entries).Some? && WithinOptions(options, entries) && Whole(entries)
    ensures Resolved(Job(dst, Effective(options), now, umask).limits)
  {
    hide Unpack, Shapes, Tally, Count, SumBodies, Readable;
    var job := Job(dst, Effective(options), now, umask);
    ReadableIs(job, entries);
    TallyIsSum(entries, 0, job.limits.maxTotal, 0);
  }

  /** A tar archive, whatever its entries: a successful call unpacks them in order over the old
      tree, and their lengths add up to the counter.  Without a fault it succeeds exactly when the
      archive has an entry and ends properly, the entries can be unpacked and read, and they are
      within the options. */
  lemma TarCall(env: Env, dst: string, options: Options, now: int, umask: nat, w: World, archive: Archive)
    requires Sound(env, Job(dst, Effective(options), now, umask), w.nodes) && SumBodies(archive.entries) <= MAX_INT64
    ensures var job, entries := Job(dst, Effective(options), now, umask), archive.entries;
      var x, u := TarExpand(env, job, w, archive), Unpack(env, job, Shapes(w.nodes), entries);
      && (x.ok ==> !env.fault(w.tick) && u == Some(Shapes(x.w.nodes)) && x.total == SumBodies(entries))
      && (NoFault(env) ==>
            (x.ok <==>
               && entries != [] && !archive.broken && Whole(entries)
               && u.Some? && WithinOptions(options, entries)))
  {
    hide Walk, PlaceOf, Join, IsPathContained, Unpack, Untar, Tally, StatText, Acceptable, WithinOptions, Whole;
    var job := Job(dst, Effective(options), now, umask);
    AcceptableByOptions(env, dst, options, now, umask, w.nodes, archive.entries);
    UntarMeaning(env, job, Tick(Tick(w)), archive);
    if Tally(archive.entries, 0, job.limits.maxTotal).ok {
      TallyIsSum(archive.entries, 0, job.limits.maxTotal, 0);
    }
  }

  /** The same for zip, where an empty list is accepted and directories count against the limit on
      one entry. */
  lemma ZipCall(env: Env, dst: string, options: Options, now: int, umask: nat, w: World, entries: seq<Member>)
    requires Sound(env, Job(dst, Effective(options), now, umask), w.nodes) && SumBodies(entries) <= MAX_INT64
    ensures var job := Job(dst, Effective(options), now, umask);
      var x, u := ZipExpand(env, job, w, entries), Unpack(env, job, Shapes(w.nodes), entries);
      && (x.ok ==> !env.fault(w.tick) && u == Some(Shapes(x.w.nodes)) && x.total == SumBodies(entries))
      && (NoFault(env) ==>
            (x.ok <==>
               && Whole(entries) && u.Some? && WithinOptions(options, entries)
               && (forall i :: 0 <= i < |entries| ==> Allows(options.maxEntrySize, 524288000, entries[i].size))))
  {
    hide Walk, PlaceOf, Join, IsPathContained, Unpack, Unzip, Tally, StatText, Acceptable, Whole;
    var job := Job(dst, Effective(options), now, umask);
    AcceptableByOptions(env, dst, options, now, umask, w.nodes, entries);
    UnzipMeaning(env, job, Tick(Tick(w)), entries);
    if Tally(entries, 0, job.limits.maxTotal).ok {
      TallyIsSum(entries, 0, job.limits.maxTotal, 0);
    }
  }

  /** After a successful tar call: each file has the times of its last entry, the time of the call
      standing for a time the entry does not have, and, if it is new, the mode of its first entry
      under the umask; each directory with a header has the mode and times of its last one, and a
      new one without has 0755 under the umask. */
  lemma TarCallFinal(env: Env, job: Job, w: World, archive: Archive, p: Path, k: string)
    requires Sound(env, job, w.nodes) && FairListing(env) && TarExpand(env, job, w, archive).ok
    ensures var r, entries := TarExpand(env, job, w, archive).w, archive.entries;
      && (LastFile(env, job, entries, p).Some? ==>
            var e := LastFile(env, job, entries, p).value;
            && p in r.nodes && r.nodes[p].File? && p in r.times
            && r.times[p].modified == (if e.modified.Some? then e.modified.value else job.now)
            && r.times[p].access == (if e.access.Some? then e.access.value else job.now))
      && ((forall h :: LastHeader(job, entries, h).Some? ==> At(env, h) != p) ==>
            ModeIs(env, job, w.nodes, r.nodes, entries, p, env.masked(493)))  // 0755
      && (LastHeader(job, entries, k).Some? ==>
            var e, d := LastHeader(job, entries, k).value, At(env, k);
            && Get(r.nodes, d) == Some(Dir(e.mode)) && d in r.times
            && r.times[d].modified == (if e.modified.Some? then e.modified.value else job.now)
            && r.times[d].access == (if e.access.Some? then e.access.value else job.now))
  {
    hide Walk, PlaceOf, Join, IsPathContained, Untar, StatText, ModeIs;
    FilesAreFinal(env, job, Tick(Tick(w)), archive, p);
    if LastHeader(job, archive.entries, k).Some? {
      DirectoriesAreFinal(env, job, Tick(Tick(w)), archive, k);
    }
  }

  /** After a successful zip call new files have the mode of their first entry, and new directories
      that of the caller, both under the umask. */
  lemma ZipCallFinal(env: Env, job: Job, w: World, entries: seq<Member>, p: Path)
    requires Sound(env, job, w.nodes) && ZipExpand(env, job, w, entries).ok
    ensures ModeIs(env, job, w.nodes, ZipExpand(env, job, w, entries).w.nodes, entries, p, env.masked(job.umask))
  {
    hide Walk, PlaceOf, Join, IsPathContained, Unzip, StatText, ModeIs;
    UnzipModes(env, job, Tick(Tick(w)), entries, p);
  }
}
