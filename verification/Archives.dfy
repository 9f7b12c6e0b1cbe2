/**
  expand/tar/tar.go and expand/zip/zip.go: extraction of an arbitrary list of entries, with a
  containment check, limits, deferred directory metadata and rollback.
 */
module Archives {
  import opened Paths
  import opened Os
  import opened Budget

  datatype Kind = Extended | Directory | Regular

  /** An archive entry: its name is arbitrary text, `size` is only what its header declares. */
  datatype Entry = Entry(
    name: string,
    kind: Kind,
    size: int,
    mode: nat,
    access: Option<int>,
    modified: Option<int>,
    body: Stream)

  /** An entry of a zip archive, which knows no extended headers. */
  type Member = e: Entry | !e.kind.Extended? witness Entry("", Directory, 0, 0, None, None, Stream([], false))

  /** What the archive reader delivers: entries, and then the end or an error. */
  datatype Archive = Archive(entries: seq<Entry>, broken: bool)

  /** One call of Expand; the limits are those that the expander's options stand for. */
  datatype Job = Job(dst: string, limits: Limits, now: int, umask: nat)

  const DIR_MODE: nat := 493  // 0755

  function PathOf(job: Job, e: Entry): string {
    Join(job.dst, e.name)
  }

  /** The place of a cleaned path; the current directory is a real one. */
  function At(env: Env, s: string): Path {
    PlaceOf(env.cwd, s)
  }

  /** filepath.Dir of a cleaned path. */
  function DirOf(s: string): string {
    if Comps(s) == [] then Clean(s) else Render(Rooted(s), Parent(Comps(s)))
  }

  function TimesOf(job: Job, e: Entry): Times {
    Times(if e.access.Some? then e.access.value else job.now,
          if e.modified.Some? then e.modified.value else job.now)
  }

  /** Open the file, copy the body within the archive-wide budget, close it. */
  function WriteEntry(env: Env, w: World, at: Path, e: Entry, total: int, maxTotal: int): Fed {
    var o := OpenFile(env, w, at, e.mode);
    if o.file.None? then Fed(o.w, total, 0, false)
    else
      var r := CopyBounded(env, o.w, o.file.value, e.body, total, maxTotal);
      var close := Touchless(env, r.w);
      r.(w := close.w, ok := r.ok && close.ok)
  }

  // ------------------------------------------------------------------ tar

  /** The variables of untar; `landed` counts the bytes that reached files, for the statements
      about the budget only. */
  datatype Tar = Tar(
    w: World,
    seen: map<string, Entry>,
    headers: nat,
    files: nat,
    total: int,
    landed: nat,
    ok: bool)

  function StartTar(w: World): Tar {
    Tar(w, map[], 0, 0, 0, 0, true)
  }

  /** The parent of an entry is made only if it does not exist. */
  function TarParent(env: Env, w: World, up: Path): Outcome {
    if Stat(env, w, up) == NotExist then MkdirAll(env, Tick(w), up, DIR_MODE) else Outcome(Tick(w), true)
  }

  function TarFile(env: Env, job: Job, s: Tar, e: Entry): Tar {
    var fPath := PathOf(job, e);
    var dir := TarParent(env, s.w, At(env, DirOf(fPath)));
    if !dir.ok then s.(w := dir.w, ok := false)
    else
      var f := WriteEntry(env, dir.w, At(env, fPath), e, s.total, job.limits.maxTotal);
      var s1 := s.(w := f.w, total := f.counter, landed := s.landed + f.landed);
      if !f.ok then s1.(ok := false)
      else
        var t := Chtimes(env, f.w, At(env, fPath), TimesOf(job, e));
        s1.(w := t.w, ok := t.ok)
  }

  function TarDirectory(env: Env, job: Job, s: Tar, e: Entry): Tar {
    var fPath := PathOf(job, e);
    var r := MkdirAll(env, s.w, At(env, fPath), DIR_MODE);
    if r.ok then s.(w := r.w, seen := s.seen[fPath := e]) else s.(w := r.w, ok := false)
  }

  function TarEntry(env: Env, job: Job, s0: Tar, e: Entry): Tar {
    var s := s0.(headers := s0.headers + 1);
    if e.kind.Extended? then s
    else
      var s1 := s.(files := s.files + 1);
      if s1.files > job.limits.files then s1.(ok := false)
      else if !IsPathContained(PathOf(job, e), job.dst) then s1.(ok := false)
      else if e.kind.Directory? then TarDirectory(env, job, s1, e)
      else if e.size > job.limits.maxEntry then s1.(ok := false)
      else TarFile(env, job, s1, e)
  }

  function TarLoop(env: Env, job: Job, s: Tar, entries: seq<Entry>): Tar
    decreases |entries|
  {
    if entries == [] || !s.ok then s else TarLoop(env, job, TarEntry(env, job, s, entries[0]), entries[1..])
  }

  /** The deferred modes and times of the directories that had headers. */
  function TarDirs(env: Env, job: Job, w: World, seen: map<string, Entry>, keys: seq<string>): Outcome
    decreases |keys|
  {
    if keys == [] then Outcome(w, true)
    else if keys[0] !in seen then TarDirs(env, job, w, seen, keys[1..])
    else
      var e := seen[keys[0]];
      var c := Chmod(env, w, At(env, keys[0]), e.mode);
      if !c.ok then c
      else
        var t := Chtimes(env, c.w, At(env, keys[0]), TimesOf(job, e));
        if t.ok then TarDirs(env, job, t.w, seen, keys[1..]) else t
  }

  function Untar(env: Env, job: Job, w: World, archive: Archive): Tar {
    var s := TarLoop(env, job, StartTar(w), archive.entries);
    if !s.ok then s
    else if archive.broken || s.headers == 0 then s.(ok := false)
    else
      var r := TarDirs(env, job, s.w, s.seen, env.order(s.seen.Keys));
      s.(w := r.w, ok := r.ok)
  }

  // ------------------------------------------------------------------ zip

  datatype Zip = Zip(w: World, total: int, landed: nat, ok: bool)

  function ZipFile(env: Env, job: Job, s: Zip, e: Member): Zip {
    var filePath := PathOf(job, e);
    var dir := MkdirAll(env, s.w, At(env, DirOf(filePath)), job.umask);
    if !dir.ok then s.(w := dir.w, ok := false)
    else
      var src := Touchless(env, dir.w);
      if !src.ok then s.(w := src.w, ok := false)
      else
        var f := WriteEntry(env, src.w, At(env, filePath), e, s.total, job.limits.maxTotal);
        Zip(f.w, f.counter, s.landed + f.landed, f.ok)
  }

  function ZipEntry(env: Env, job: Job, s: Zip, e: Member): Zip {
    if e.size > job.limits.maxEntry then s.(ok := false)
    else if !IsPathContained(PathOf(job, e), job.dst) then s.(ok := false)
    else if e.kind.Directory? then
      var r := MkdirAll(env, s.w, At(env, PathOf(job, e)), job.umask);
      s.(w := r.w, ok := r.ok)
    else ZipFile(env, job, s, e)
  }

  function ZipLoop(env: Env, job: Job, s: Zip, entries: seq<Member>): Zip
    decreases |entries|
  {
    if entries == [] || !s.ok then s else ZipLoop(env, job, ZipEntry(env, job, s, entries[0]), entries[1..])
  }

  function Unzip(env: Env, job: Job, w: World, entries: seq<Member>): Zip {
    if |entries| > job.limits.files then Zip(w, 0, 0, false)
    else ZipLoop(env, job, Zip(w, 0, 0, true), entries)
  }

  // ------------------------------------------------------------------ Expand

  /** RemoveOnError: what a failed extraction left is removed if dst was absent before. */
  function RemoveOnError(env: Env, w: World, dst: string, created: bool, ok: bool): World {
    if !ok && created then RemoveAllText(env, w, dst) else w
  }

  datatype Expanded = Expanded(w: World, total: int, landed: nat, ok: bool)

  function TarExpand(env: Env, job: Job, w: World, archive: Archive): Expanded {
    var src := Touchless(env, w);
    if !src.ok then Expanded(src.w, 0, 0, false)
    else
      var created := StatText(env, src.w, job.dst) == NotExist;
      var s := Untar(env, job, Tick(src.w), archive);
      Expanded(RemoveOnError(env, s.w, job.dst, created, s.ok), s.total, s.landed, s.ok)
  }

  function ZipExpand(env: Env, job: Job, w: World, entries: seq<Member>): Expanded {
    var src := Touchless(env, w);
    if !src.ok then Expanded(src.w, 0, 0, false)
    else
      var created := StatText(env, src.w, job.dst) == NotExist;
      var s := Unzip(env, job, Tick(src.w), entries);
      Expanded(RemoveOnError(env, s.w, job.dst, created, s.ok), s.total, s.landed, s.ok)
  }

  // ------------------------------------------------------------------ where entries go

  /** The process runs at a place of real names, and dst does not end in "..". */
  predicate GoodJob(env: Env, job: Job) {
    AllReal(env.cwd) && !EndsUp(job.dst)
  }

  predicate Contained(job: Job, e: Entry) {
    IsPathContained(PathOf(job, e), job.dst)
  }

  lemma EmptyPath()
    ensures Comps("") == []
  {
    assert Split("") == [""];
    assert Fold(false, [], [""]) == [];
  }

  /** The target of a contained entry lies properly below dst, and its directory not above it. */
  lemma EntryPlace(env: Env, job: Job, e: Entry)
    requires GoodJob(env, job) && Contained(job, e)
    ensures var p, d := At(env, PathOf(job, e)), At(env, job.dst);
      && AllReal(p) && AllReal(d) && d < p && p != []
      && At(env, DirOf(PathOf(job, e))) == Parent(p)
      && d <= Parent(p)
      && AllReal(Parent(p))
  {
    var f := PathOf(job, e);
    ContainedLocation(env.cwd, f, job.dst);
    PlaceByComps(env.cwd, f);
    PlaceByComps(env.cwd, job.dst);
    var p, d := At(env, f), At(env, job.dst);
    assert d == p[..|d|];
    ParentPrefix(d, p);
    PlaceOfDir(env, f, Comps(job.dst), Comps(f)[|Comps(job.dst)|..]);
  }

  lemma PlaceOfDir(env: Env, f: string, c: Path, r: Path)
    requires AllReal(env.cwd) && r != [] && AllReal(r) && Comps(f) == c + r
    ensures At(env, f) != [] && At(env, DirOf(f)) == Parent(At(env, f))
  {
    var rooted, base := Rooted(f), if Rooted(f) then [] else env.cwd;
    var up := Parent(Comps(f));
    CompsNormal(f);
    NormalPrefix(rooted, Comps(f), up);
    hide Render, Comps, Rooted, PlaceOf;
    RenderRoundTrip(rooted, up);
    PlaceByComps(env.cwd, f);
    PlaceByComps(env.cwd, DirOf(f));
    assert Comps(f) == up + [Last(r)];
    FoldAppend(true, base, up, [Last(r)]);
  }

  /** An entry goes where its name leads from the place of dst, lexically. */
  lemma EntryNamed(env: Env, job: Job, e: Entry)
    requires AllReal(env.cwd) && job.dst != ""
    ensures At(env, PathOf(job, e)) == Fold(true, At(env, job.dst), Split(e.name))
  {
    var s := job.dst + "/" + e.name;
    PlaceOfClean(env.cwd, s);
    SplitAppend(job.dst, e.name);
    FoldAppend(true, if Rooted(s) then [] else env.cwd, Split(job.dst), Split(e.name));
  }

  /** Two contained entries have the same target only if they have the same cleaned path. */
  lemma PlaceInjective(env: Env, job: Job, e1: Entry, e2: Entry)
    requires GoodJob(env, job) && Contained(job, e1) && Contained(job, e2)
    requires At(env, PathOf(job, e1)) == At(env, PathOf(job, e2))
    ensures PathOf(job, e1) == PathOf(job, e2)
  {
    var f1, f2, d := PathOf(job, e1), PathOf(job, e2), At(env, job.dst);
    ContainedIff(f1, job.dst);
    ContainedIff(f2, job.dst);
    ContainedLocation(env.cwd, f1, job.dst);
    ContainedLocation(env.cwd, f2, job.dst);
    EmptyPath();
    JoinClean(job.dst, e1.name);
    JoinClean(job.dst, e2.name);
    assert At(env, f1)[|d|..] == At(env, f2)[|d|..];
    assert (d + Comps(f1)[|Comps(job.dst)|..])[|d|..] == Comps(f1)[|Comps(job.dst)|..];
    assert (d + Comps(f2)[|Comps(job.dst)|..])[|d|..] == Comps(f2)[|Comps(job.dst)|..];
    CleanCanonical(f1, f2);
  }

  lemma JoinClean(a: string, b: string)
    requires Join(a, b) != ""
    ensures Clean(Join(a, b)) == Join(a, b)
  {
    if a == "" {
      CleanIdempotent(b);
    } else {
      CleanIdempotent(a + "/" + b);
    }
  }
}
