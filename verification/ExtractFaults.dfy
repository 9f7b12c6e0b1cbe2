/**
  Which failures an expander notices: once the directory of a file is there, any.  The number of calls
  is part of the statements, so none is left out.
 */
module ExtractFaults {
  import opened Paths
  import opened Os
  import opened Budget
  import opened Archives

  /** How many writes deliver the pieces; an empty one needs none. */
  function Writes(pieces: seq<Bytes>): nat {
    if pieces == [] then 0 else (if pieces[0] == [] then 0 else 1) + Writes(pieces[1..])
  }

  lemma {:induction false} FeedFaults(env: Env, w: World, q: Path, pieces: seq<Bytes>, counter: int, max: int)
    ensures var r := Feed(env, w, q, pieces, counter, max);
      r.ok ==> r.w.tick == w.tick + Writes(pieces) && NoneFails(env, w.tick, Writes(pieces))
    decreases |pieces|
  {
    if pieces != [] {
      if pieces[0] == [] {
        FeedFaults(env, w, q, pieces[1..], counter, max);
      } else {
        var c, r := Wrap(counter + |pieces[0]|), Write(env, w, q, pieces[0]);
        if c <= max && r.ok {
          FeedFaults(env, r.w, q, pieces[1..], c, max);
          NoneJoin(env, w.tick, 1, Writes(pieces[1..]));
        }
      }
    }
  }

  /** A file that counts as written was opened, written and closed without an error. */
  lemma WriteFaults(env: Env, w: World, at: Path, e: Entry, total: int, max: int)
    ensures var r := WriteEntry(env, w, at, e, total, max);
      var n := Writes(e.body.pieces) + 2;
      r.ok ==> r.w.tick == w.tick + n && NoneFails(env, w.tick, n) && !e.body.broken
  {
    hide Locate, Feed, NoneFails;
    var o := OpenFile(env, w, at, e.mode);
    if o.file.Some? {
      FeedFaults(env, o.w, o.file.value, e.body.pieces, total, max);
      var n := Writes(e.body.pieces);
      NoneJoin(env, w.tick, 1, n);
      NoneJoin(env, w.tick, 1 + n, 1);
      NoneJoin(env, w.tick + 1 + n, 1, 0);
    }
  }

  lemma ChtimesFaults(env: Env, w: World, p: Path, times: Times)
    ensures var r := Chtimes(env, w, p, times); r.w.tick == w.tick + 1 && (r.ok ==> !env.fault(w.tick))
  {
    hide Locate;
  }

  /** In tar, its times were set too. */
  lemma TarFileFaults(env: Env, job: Job, s: Tar, e: Entry)
    requires s.ok
    ensures var dir, r := TarParent(env, s.w, At(env, DirOf(PathOf(job, e)))), TarFile(env, job, s, e);
      var n := Writes(e.body.pieces) + 3;
      r.ok ==> dir.ok && r.w.tick == dir.w.tick + n && NoneFails(env, dir.w.tick, n) && !e.body.broken
  {
    hide Locate, PlaceOf, Join, WriteEntry, TarParent, NoneFails, Chtimes, DirOf, TimesOf;
    var dir := TarParent(env, s.w, At(env, DirOf(PathOf(job, e))));
    WriteFaults(env, dir.w, At(env, PathOf(job, e)), e, s.total, job.limits.maxTotal);
    var f := WriteEntry(env, dir.w, At(env, PathOf(job, e)), e, s.total, job.limits.maxTotal);
    var n := Writes(e.body.pieces) + 2;
    ChtimesFaults(env, f.w, At(env, PathOf(job, e)), TimesOf(job, e));
    NoneJoin(env, dir.w.tick, n, 1);
    NoneJoin(env, dir.w.tick + n, 1, 0);
  }

  /** In zip, the entry was opened for reading. */
  lemma ZipFileFaults(env: Env, job: Job, s: Zip, e: Member)
    requires s.ok
    ensures var dir, r := MkdirAll(env, s.w, At(env, DirOf(PathOf(job, e))), job.umask), ZipFile(env, job, s, e);
      var n := Writes(e.body.pieces) + 3;
      r.ok ==> dir.ok && r.w.tick == dir.w.tick + n && NoneFails(env, dir.w.tick, n) && !e.body.broken
  {
    hide Locate, PlaceOf, Join, WriteEntry, MkdirAll, NoneFails, DirOf;
    var dir := MkdirAll(env, s.w, At(env, DirOf(PathOf(job, e))), job.umask);
    WriteFaults(env, Tick(dir.w), At(env, PathOf(job, e)), e, s.total, job.limits.maxTotal);
    NoneJoin(env, dir.w.tick, 1, Writes(e.body.pieces) + 2);
  }
}
