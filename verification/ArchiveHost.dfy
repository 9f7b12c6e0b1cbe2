/**
  The expanders as the program runs them: loops over entries that write files through a shared
  budget, proved to do exactly what the definitions of Archives and Budget say.
 */
module ArchiveHost {
  import opened Paths
  import opened Os
  import opened Hosts
  import opened Budget
  import opened Archives

  /** The running total that several copies share through a pointer. */
  class Counter {
    var n: int

    constructor ()
      ensures n == 0
    {
      n := 0;
    }
  }

  /** limitWriter: adds the length of each write to the shared total, and refuses the write once
      the total exceeds max. */
  class LimitWriter {
    const host: Host
    const dst: Path
    const copied: Counter
    const max: int

    constructor (host: Host, dst: Path, copied: Counter, max: int)
      ensures this.host == host && this.dst == dst && this.copied == copied && this.max == max
    {
      this.host := host;
      this.dst := dst;
      this.copied := copied;
      this.max := max;
    }

    method Write(p: Bytes) returns (ok: bool)
      modifies host, copied
      ensures copied.n == Wrap(old(copied.n) + |p|)
      ensures copied.n > max ==> !ok && host.w == old(host.w) && host.history == old(host.history)
      ensures copied.n <= max ==> Outcome(host.w, ok) == Os.Write(host.env, old(host.w), dst, p)
      ensures host.history == old(host.history) || host.Stepped(old(host.history))
      ensures OpenFileAt(old(host.w.nodes), dst) ==>
        OpenFileAt(host.w.nodes, dst) && host.w.nodes == old(host.w.nodes)[dst := host.w.nodes[dst]]
    {
      if OpenFileAt(host.w.nodes, dst) {
        WriteEffect(host.env, host.w, dst, p);
      }
      copied.n := Wrap(copied.n + |p|);
      if copied.n > max {
        return false;
      }
      ok := host.Write(dst, p);
    }
  }

  method CopyBounded(h: Host, dst: Path, src: Stream, copied: Counter, max: int) returns (ok: bool, ghost landed: nat)
    modifies h, copied
    ensures Fed(h.w, copied.n, landed, ok) == Budget.CopyBounded(h.env, old(h.w), dst, src, old(copied.n), max)
    ensures old(h.history) <= h.history
    ensures OpenFileAt(old(h.w.nodes), dst) ==> FileHistory(h.history, |old(h.history)|, old(h.w.nodes), dst)
  {
    hide Walk, Os.Write, Put, FileHistory;
    ghost var m, isFile := h.w.nodes, OpenFileAt(h.w.nodes, dst);
    ghost var whole := Feed(h.env, h.w, dst, src.pieces, copied.n, max);
    NoFileHistory(h.history, m, dst);
    var writer := new LimitWriter(h, dst, copied, max);
    var i := 0;
    landed := 0;
    assert src.pieces[0..] == src.pieces;
    while i < |src.pieces|
      invariant 0 <= i <= |src.pieces|
      invariant var rest := Feed(h.env, h.w, dst, src.pieces[i..], copied.n, max);
        whole == rest.(landed := rest.landed + landed)
      invariant old(h.history) <= h.history
      invariant isFile ==> OpenFileAt(h.w.nodes, dst) && h.w.nodes == m[dst := h.w.nodes[dst]]
      invariant isFile ==> FileHistory(h.history, |old(h.history)|, m, dst)
    {
      var piece := src.pieces[i];
      assert src.pieces[i..][0] == piece && src.pieces[i..][1..] == src.pieces[i + 1..];
      if piece != [] {
        ghost var torn := Min(h.env.partial(h.w.tick), |piece|);
        ghost var before, history := h.w, h.history;
        ok := writer.Write(piece);
        if isFile {
          FileStep(history, h.history, |old(h.history)|, m, before, h.w, dst);
        }
        if !ok {
          landed := landed + if copied.n > max then 0 else torn;
          return;
        }
        landed := landed + |piece|;
      }
      i := i + 1;
    }
    ok := !src.broken;
  }

  lemma NoFileHistory(history: seq<World>, m: Tree, q: Path)
    ensures FileHistory(history, |history|, m, q)
  {
  }

  // ------------------------------------------------------------------ tar

  /** writeTarFile and the body of extractFile: create the file, copy within the budget, close. */
  method WriteFile(h: Host, fPath: string, e: Entry, totalExtracted: Counter, maxTotal: int)
    returns (ok: bool, ghost landed: nat)
    modifies h, totalExtracted
    ensures Fed(h.w, totalExtracted.n, landed, ok)
      == WriteEntry(h.env, old(h.w), At(h.env, fPath), e, old(totalExtracted.n), maxTotal)
  {
    landed := 0;
    var outFile := h.OpenFile(At(h.env, fPath), e.mode);
    if outFile.None? {
      return false, 0;
    }
    ok, landed := CopyBounded(h, outFile.value, e.body, totalExtracted, maxTotal);
    var closed := h.Call();
    ok := ok && closed;
  }

  method Untar(h: Host, job: Job, archive: Archive, totalExtracted: Counter) returns (ok: bool, ghost landed: nat)
    requires totalExtracted.n == 0
    modifies h, totalExtracted
    ensures var r := Archives.Untar(h.env, job, old(h.w), archive);
      h.w == r.w && totalExtracted.n == r.total && landed == r.landed && ok == r.ok
  {
    hide Walk, PlaceOf, Join, IsPathContained, TarFile, MkdirAll, TarDirs;
    var seenDirs: map<string, Entry> := map[];
    var filesCount, headerCount: nat := 0, 0;
    landed := 0;
    ghost var start := StartTar(h.w);
    assert archive.entries[0..] == archive.entries;
    var i := 0;
    while i < |archive.entries|
      invariant 0 <= i <= |archive.entries|
      invariant TarLoop(h.env, job, start, archive.entries)
        == TarLoop(h.env, job,
          Tar(h.w, seenDirs, headerCount, filesCount, totalExtracted.n, landed, true), archive.entries[i..])
    {
      var header := archive.entries[i];
      ghost var s := Tar(h.w, seenDirs, headerCount, filesCount, totalExtracted.n, landed, true);
      assert archive.entries[i..][0] == header && archive.entries[i..][1..] == archive.entries[i + 1..];
      headerCount := headerCount + 1;
      if !header.kind.Extended? {
        filesCount := filesCount + 1;
        if filesCount > job.limits.files {
          return false, landed;
        }
        var fPath := Join(job.dst, header.name);
        if !IsPathContained(fPath, job.dst) {
          return false, landed;
        }
        if header.kind.Directory? {
          ok := h.MkdirAll(At(h.env, fPath), DIR_MODE);
          if !ok {
            return;
          }
          seenDirs := seenDirs[fPath := header];
        } else {
          if header.size > job.limits.maxEntry {
            return false, landed;
          }
          ghost var more;
          ok, more := ExtractTarFile(h, job, fPath, header, totalExtracted);
          landed := landed + more;
          if !ok {
            return;
          }
        }
      }
      i := i + 1;
    }
    if archive.broken || headerCount == 0 {
      return false, landed;
    }
    ok := AdjustDirectories(h, job, seenDirs, h.env.order(seenDirs.Keys));
  }

  /** The part of the loop body of untar from the parent directory on. */
  method ExtractTarFile(h: Host, job: Job, fPath: string, header: Entry, totalExtracted: Counter)
    returns (ok: bool, ghost landed: nat)
    requires fPath == PathOf(job, header)
    modifies h, totalExtracted
    ensures forall s: Tar :: s.w == old(h.w) && s.total == old(totalExtracted.n) && s.ok ==>
      TarFile(h.env, job, s, header) == s.(w := h.w, total := totalExtracted.n, landed := s.landed + landed, ok := ok)
  {
    hide Walk, PlaceOf, Join;
    landed := 0;
    var destPath := DirOf(fPath);
    var status := h.Stat(At(h.env, destPath));
    if status == NotExist {
      ok := h.MkdirAll(At(h.env, destPath), DIR_MODE);
      if !ok {
        return;
      }
    }
    ok, landed := WriteFile(h, fPath, header, totalExtracted, job.limits.maxTotal);
    if !ok {
      return;
    }
    ok := h.Chtimes(At(h.env, fPath), TimesOf(job, header));
  }

  method AdjustDirectories(h: Host, job: Job, seenDirs: map<string, Entry>, order: seq<string>) returns (ok: bool)
    modifies h
    ensures Outcome(h.w, ok) == TarDirs(h.env, job, old(h.w), seenDirs, order)
  {
    hide Walk, PlaceOf;
    ghost var w0 := h.w;
    var i := 0;
    assert order[0..] == order;
    while i < |order|
      invariant 0 <= i <= |order|
      invariant TarDirs(h.env, job, w0, seenDirs, order) == TarDirs(h.env, job, h.w, seenDirs, order[i..])
    {
      var path := order[i];
      assert order[i..][0] == path && order[i..][1..] == order[i + 1..];
      if path in seenDirs {
        ok := h.Chmod(At(h.env, path), seenDirs[path].mode);
        if !ok {
          return;
        }
        ok := h.Chtimes(At(h.env, path), TimesOf(job, seenDirs[path]));
        if !ok {
          return;
        }
      }
      i := i + 1;
    }
    ok := true;
  }

  /** TarExpander.Expand. */
  method ExpandTar(h: Host, dst: string, options: Options, now: int, umask: nat, archive: Archive) returns (ok: bool)
    modifies h
    ensures var x := TarExpand(h.env, Job(dst, Effective(options), now, umask), old(h.w), archive);
      h.w == x.w && ok == x.ok
  {
    hide Walk, PlaceOf, Archives.Untar, Effective;
    var job := Job(dst, Effective(options), now, umask);
    ok := h.Call();
    if !ok {
      return;
    }
    var status := h.StatText(dst);
    var createdDst := status == NotExist;
    var totalExtracted := new Counter();
    ghost var landed;
    ok, landed := Untar(h, job, archive, totalExtracted);
    if !ok && createdDst {
      h.RemoveAllText(dst);
    }
  }

  // ------------------------------------------------------------------ zip

  /** ZipExpander.extractFile. */
  method ExtractFile(h: Host, filePath: string, f: Member, totalExtracted: Counter, maxTotal: int)
    returns (ok: bool, ghost landed: nat)
    modifies h, totalExtracted
    ensures var src := Touchless(h.env, old(h.w));
      Fed(h.w, totalExtracted.n, landed, ok) ==
        if src.ok then WriteEntry(h.env, src.w, At(h.env, filePath), f, old(totalExtracted.n), maxTotal)
        else Fed(src.w, old(totalExtracted.n), 0, false)
  {
    landed := 0;
    ok := h.Call();
    if ok {
      ok, landed := WriteFile(h, filePath, f, totalExtracted, maxTotal);
    }
  }

  method Unzip(h: Host, job: Job, files: seq<Member>, totalExtracted: Counter) returns (ok: bool, ghost landed: nat)
    requires totalExtracted.n == 0
    modifies h, totalExtracted
    ensures Zip(h.w, totalExtracted.n, landed, ok) == Archives.Unzip(h.env, job, old(h.w), files)
  {
    hide Walk, PlaceOf, Join, IsPathContained, WriteEntry, MkdirAll, DirOf;
    landed := 0;
    if |files| > job.limits.files {
      return false, 0;
    }
    ghost var start := Zip(h.w, 0, 0, true);
    assert files[0..] == files;
    var i := 0;
    while i < |files|
      invariant 0 <= i <= |files|
      invariant ZipLoop(h.env, job, start, files) ==
        ZipLoop(h.env, job, Zip(h.w, totalExtracted.n, landed, true), files[i..])
    {
      var f := files[i];
      assert files[i..][0] == f && files[i..][1..] == files[i + 1..];
      if f.size > job.limits.maxEntry {
        return false, landed;
      }
      var filePath := Join(job.dst, f.name);
      if !IsPathContained(filePath, job.dst) {
        return false, landed;
      }
      if f.kind.Directory? {
        ok := h.MkdirAll(At(h.env, filePath), job.umask);
        if !ok {
          return;
        }
      } else {
        ok := h.MkdirAll(At(h.env, DirOf(filePath)), job.umask);
        if !ok {
          return;
        }
        ghost var more;
        ok, more := ExtractFile(h, filePath, f, totalExtracted, job.limits.maxTotal);
        landed := landed + more;
        if !ok {
          return;
        }
      }
      i := i + 1;
    }
    ok := true;
  }

  /** ZipExpander.Expand. */
  method ExpandZip(h: Host, dst: string, options: Options, now: int, umask: nat, files: seq<Member>) returns (ok: bool)
    modifies h
    ensures var x := ZipExpand(h.env, Job(dst, Effective(options), now, umask), old(h.w), files);
      h.w == x.w && ok == x.ok
  {
    hide Walk, PlaceOf, Archives.Unzip, Effective;
    var job := Job(dst, Effective(options), now, umask);
    ok := h.Call();
    if !ok {
      return;
    }
    var status := h.StatText(dst);
    var createdDst := status == NotExist;
    var totalExtracted := new Counter();
    ghost var landed;
    ok, landed := Unzip(h, job, files, totalExtracted);
    if !ok && createdDst {
      h.RemoveAllText(dst);
    }
  }
}
