/**
  The archive branch of Gather in gather/file/file.go: the archive is expanded, and the size that
  is reported is measured in what that left.
 */
module GatherArchive {
  import opened Paths
  import opened Os
  import opened Hosts
  import opened Budget
  import opened Archives
  import opened Frames
  import opened ExtractFrame
  import opened ExtractMeter
  import opened ExtractMeaning
  import opened ZipMeaning
  import opened UnpackResult
  import opened Measure
  import opened PlainHost
  import ArchiveHost

  datatype Packed = Tarball(archive: Archive) | Zipped(files: seq<Member>)

  function EntriesOf(packed: Packed): seq<Entry> {
    match packed
    case Tarball(archive) => archive.entries
    case Zipped(files) => files
  }

  function Expand(env: Env, job: Job, w: World, packed: Packed): Expanded {
    match packed
    case Tarball(archive) => TarExpand(env, job, w, archive)
    case Zipped(files) => ZipExpand(env, job, w, files)
  }

  /** Some entry is a file or a directory. */
  predicate Fills(entries: seq<Entry>) {
    exists i :: 0 <= i < |entries| && !entries[i].kind.Extended?
  }

  lemma {:induction false} UnpackedThere(env: Env, job: Job, t: Skeleton, entries: seq<Entry>)
    requires GoodJob(env, job)
    ensures var d, u := At(env, job.dst), Unpack(env, job, t, entries);
      u.Some? ==> (d in u.value <==> d in t || Fills(entries))
    decreases |entries|
  {
    hide PlaceOf, Join, IsPathContained;
    var d := At(env, job.dst);
    if entries != [] && UnpackOne(env, job, t, entries[0]).Some? {
      var e, rest := entries[0], entries[1..];
      UnpackedThere(env, job, UnpackOne(env, job, t, e).value, rest);
      if !e.kind.Extended? {
        EntryPlace(env, job, e);
        WaysArePrefixes(At(env, PathOf(job, e)));
        WaysArePrefixes(Parent(At(env, PathOf(job, e))));
      }
      assert Fills(entries) <==> !e.kind.Extended? || Fills(rest) by {
        if Fills(rest) {
          var i :| 0 <= i < |rest| && !rest[i].kind.Extended?;
          assert entries[i + 1] == rest[i];
        }
        if Fills(entries) && e.kind.Extended? {
          var i :| 0 <= i < |entries| && !entries[i].kind.Extended?;
          assert rest[i - 1] == entries[i];
        }
      }
    }
  }

  /** What expanding leaves, when it succeeds. */
  lemma ExpandedTree(env: Env, job: Job, w: World, packed: Packed)
    requires Sound(env, job, w.nodes) && Resolved(job.limits)
    ensures var d, x := At(env, job.dst), Expand(env, job, w, packed);
      x.ok ==>
        && Keeps(w.nodes, x.w.nodes, d)
        && Unpack(env, job, Shapes(w.nodes), EntriesOf(packed)) == Some(Shapes(x.w.nodes))
        && (d in x.w.nodes <==> d in w.nodes || Fills(EntriesOf(packed)))
  {
    hide Walk, PlaceOf, Join, IsPathContained, Unpack, Untar, Unzip, StatText, Keeps, Tally;
    var w2, m := Tick(Tick(w)), w.nodes;
    UnpackedThere(env, job, Shapes(m), EntriesOf(packed));
    match packed
    case Tarball(archive) =>
      UntarFrame(env, job, w2, archive);
      UntarMeaning(env, job, w2, archive);
    case Zipped(files) =>
      UnzipFrame(env, job, w2, files);
      UnzipMeaning(env, job, w2, files);
  }

  /** The reported size is within what the budget of the archive counted, and is exactly that if
      the file entries name different places. */
  lemma ExpandedSize(env: Env, job: Job, w: World, packed: Packed, c: nat)
    requires Sound(env, job, w.nodes) && At(env, job.dst) !in w.nodes && Resolved(job.limits)
    requires AllChunked(EntriesOf(packed), c) && Roomy(job, c, 0, SumBodies(EntriesOf(packed)))
    ensures var x := Expand(env, job, w, packed);
      x.ok ==>
        && Size(Sub(Shapes(x.w.nodes), At(env, job.dst))) <= x.total <= job.limits.maxTotal
        && (Separate(env, job, Shapes(w.nodes), EntriesOf(packed)) ==>
              Size(Sub(Shapes(x.w.nodes), At(env, job.dst))) == x.total)
  {
    match packed
    case Tarball(archive) => MeasuredSizeIsBounded(env, job, w, archive, c);
    case Zipped(files) => ZipMeasuredSizeIsBounded(env, job, w, files, c);
  }

  /** Expand, then GetDirectorySize.  Without a fault this succeeds exactly when the extraction
      does and the destination was there or some entry makes it: an archive of extended headers
      only, or an empty zip file, is expanded, but then there is nothing to measure.  The reported
      size of a new destination is within the limit, whatever the entries say and however they
      overwrite one another. */
  method Gather(h: Host, dst: string, options: Options, now: int, packed: Packed, ghost c: nat)
    returns (ok: bool, size: nat)
    requires FairListing(h.env) && Sound(h.env, Job(dst, Effective(options), now, 493), h.w.nodes) && Plain(dst)
    modifies h
    ensures var job := Job(dst, Effective(options), now, 493);
      var x, d, m := Expand(h.env, job, old(h.w), packed), At(h.env, dst), old(h.w.nodes);
      && h.w.nodes == x.w.nodes
      && (ok ==> x.ok && size == Size(Sub(Shapes(h.w.nodes), d)))
      && (ok ==> Unpack(h.env, job, Shapes(m), EntriesOf(packed)) == Some(Shapes(h.w.nodes)))
      && (NoFault(h.env) ==> (ok <==> x.ok && (d in m || Fills(EntriesOf(packed)))))
      && (ok && d !in m && AllChunked(EntriesOf(packed), c) && Roomy(job, c, 0, SumBodies(EntriesOf(packed))) ==>
            && size <= x.total && Allows(options.maxTotalSize, 1073741824, size)
            && (Separate(h.env, job, Shapes(m), EntriesOf(packed)) ==> size == x.total))
  {
    hide Walk, PlaceOf, TarExpand, ZipExpand, Unpack, Shapes, Sub, Size, AllChunked, Roomy, Separate, Fills;
    ghost var job := Job(dst, Effective(options), now, 493);
    ghost var w0 := h.w;
    ghost var d := At(h.env, dst);
    size := 0;
    ExpandedTree(h.env, job, w0, packed);
    if d !in w0.nodes && AllChunked(EntriesOf(packed), c) && Roomy(job, c, 0, SumBodies(EntriesOf(packed))) {
      ExpandedSize(h.env, job, w0, packed, c);
    }
    match packed {
      case Tarball(archive) => ok := ArchiveHost.ExpandTar(h, dst, options, now, 493, archive);
      case Zipped(files) => ok := ArchiveHost.ExpandZip(h, dst, options, now, 493, files);
    }
    if ok {
      PlaceByComps(h.env.cwd, dst);
      ClearUp(h.w.nodes, d);
      ok, size := GetDirectorySize(h, At(h.env, dst));
    }
  }
}
