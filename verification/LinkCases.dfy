/**
  Destinations from which a symlink carries entries out: at once, or only when an earlier entry
  has made the directory it needs.
 */
module LinkCases {
  import opened Paths
  import opened Os
  import opened RawPaths
  import opened Frames
  import opened Archives
  import opened ExtractDown
  import opened ExtractLinks

  /** In the destination "/d", a name of real components leads to /d and them. */
  lemma Target(env: Env, job: Job, e: Entry, c: Path)
    requires env.cwd == [] && job.dst == "/d" && c != [] && AllReal(c) && e.name == Text(c)
    ensures GoodJob(env, job) && Contained(job, e)
    ensures At(env, job.dst) == ["d"] && At(env, PathOf(job, e)) == ["d"] + c
  {
    hide Fold, PlaceOf, Split;
    var p := ["d"] + c;
    assert p[1..] == c && Text(["d"]) == "d" && Real("d");
    RootedComps([], "/d", ["d"]);
    var s := "/d" + "/" + e.name;
    assert s == "/" + Text(p);
    RootedComps([], s, p);
    PlainPlace([], "/d");
    PlaceOfClean([], s);
    CompsNormal(s);
    RenderRoundTrip(true, p);
    RenderRoundTrip(true, ["d"]);
    ContainedIff(PathOf(job, e), job.dst);
    assert p[..1] == ["d"];
  }

  /** The text "/d" leads to /d. */
  lemma DirectoryD(env: Env, job: Job, w: World)
    requires NoFault(env) && env.cwd == [] && job.dst == "/d" && IsDir(w.nodes, ["d"])
    ensures StatText(env, w, job.dst) != NotExist
  {
    var p: seq<string> := ["", "d"];
    assert Text(["d"]) == "d" && Real("d");
    RootedComps([], "/d", ["d"]);
    assert [""] + ["d"] == p && p[1..] == ["d"] && ["d"][1..] == [] && [] + ["d"] == ["d"];
    assert [] + p == p;
    assert Walk(w.nodes, [], false, [], ["d"], env.maxLinks, true) == Found(["d"], env.maxLinks);
  }

  function Linked(target: string): Tree {
    map[[] := Dir(493), ["d"] := Dir(493), ["d", "l"] := Link(target)]
  }

  lemma LinkedIsTree(target: string)
    ensures WF(Linked(target)) && IsDir(Linked(target), ["d"])
  {
    assert Parent(["d"]) == [] && Parent(["d", "l"]) == ["d"];
    assert Real("d") && Real("l");
  }

  /** What a path through the symlink leads to. */
  lemma ThroughLink(env: Env, m: Tree, target: string, rest: seq<string>)
    requires env.maxLinks > 0 && IsDir(m, ["d"]) && ["d", "l"] in m && m[["d", "l"]] == Link(target)
    ensures Locate(env, m, ["d", "l"] + rest, true) ==
      Walk(m, [], false, if Rooted(target) then [] else ["d"], Split(target) + rest, env.maxLinks - 1, true)
    ensures Locate(env, m, ["d"], true) == Found(["d"], env.maxLinks)
    ensures Locate(env, m, ["d", "l"], false) == Found(["d", "l"], env.maxLinks)
  {
    var n := env.maxLinks;
    assert (["d", "l"] + rest)[1..] == ["l"] + rest && (["l"] + rest)[1..] == rest;
    assert [] + ["d"] == ["d"] && ["d"] + ["l"] == ["d", "l"];
    assert ["d"][1..] == [] && ["l"][1..] == [] && ["d", "l"][1..] == ["l"];
    assert Walk(m, [], false, ["d"], [], n, true) == Found(["d"], n);
    assert Walk(m, [], false, ["d"], ["l"], n, false) == Found(["d", "l"], n);
    assert Walk(m, [], false, ["d"], ["l"] + rest, n, true) ==
      Walk(m, [], false, if Rooted(target) then [] else ["d"], Split(target) + rest, n - 1, true);
  }

  // ------------------------------------------------------------------ one entry

  lemma FromRoot(env: Env, m: Tree)
    requires env.maxLinks > 0 && IsDir(m, ["d"]) && ["d", "l"] in m && m[["d", "l"]] == Link("/") && ["x"] !in m
    ensures Locate(env, m, ["d", "l"], true).Found?
    ensures Locate(env, m, ["d", "l", "x"], true) == Missing(["x"])
  {
    var n := env.maxLinks - 1;
    ThroughLink(env, m, "/", []);
    ThroughLink(env, m, "/", ["x"]);
    assert Split("/") == ["", ""] && ["", ""] + ["x"] == ["", "", "x"] && ["", ""] + [] == ["", ""];
    assert ["d", "l"] + [] == ["d", "l"] && ["d", "l"] + ["x"] == ["d", "l", "x"];
    assert [""][1..] == [] && ["", ""][1..] == [""];
    assert ["", "", "x"][1..] == ["", "x"] && ["", "x"][1..] == ["x"] && ["x"][1..] == [];
    assert [] + ["x"] == ["x"];
    assert Walk(m, [], false, [], [""], n, true) == Found([], n);
    assert Walk(m, [], false, [], ["", "x"], n, true) == Missing(["x"]);
  }

  /** Into /d, where l is a symlink to "/", the entry "l/x" passes the check and is written to
      /x. */
  lemma LinkLeadsOut(env: Env, job: Job, w: World, e: Entry)
    requires NoFault(env) && FairListing(env) && env.maxLinks > 0 && env.cwd == []
    requires w.nodes == Linked("/") && job.dst == "/d" && e.name == "l/x"
    requires e.kind.Regular? && e.size <= job.limits.maxEntry && 1 <= job.limits.files
    ensures Contained(job, e)
    ensures !Within(w.nodes, TarExpand(env, job, w, Archive([e], false)).w.nodes, At(env, job.dst))
  {
    hide Walk, Locate, TarExpand, Join, PlaceOf, IsPathContained, Within, StatText;
    var c := ["l", "x"];
    assert Text(c) == "l/x" by { assert c[1..] == ["x"]; }
    assert Real("l") && Real("x");
    Target(env, job, e, c);
    assert ["d"] + c == ["d", "l", "x"] && Parent(["d", "l", "x"]) == ["d", "l"];
    LinkedIsTree("/");
    DirectoryD(env, job, w);
    FromRoot(env, w.nodes);
    assert Touch(env, job, w.nodes, e, true) == Some(["x"]);
    TarStaysIff(env, job, w, e);
  }

  // ------------------------------------------------------------------ two entries

  const TURN := "x/../.."

  lemma TurnSplit()
    ensures Split(TURN) == ["x", "..", ".."] && !Rooted(TURN)
  {
    var cs := ["x", "..", ".."];
    assert Text(["..", ".."]) == "../.." by { assert ["..", ".."][1..] == [".."]; }
    assert Text(cs) == TURN by { assert cs[1..] == ["..", ".."]; }
    SplitText(cs);
  }

  lemma Into(m: Tree, cur: Path, c: string, rest: seq<string>, links: nat)
    requires Real(c) && IsDir(m, cur + [c])
    ensures Walk(m, [], false, cur, [c] + rest, links, true) == Walk(m, [], false, cur + [c], rest, links, true)
  {
    assert ([c] + rest)[1..] == rest;
  }

  lemma Up(m: Tree, cur: Path, rest: seq<string>, links: nat)
    requires cur != []
    ensures Walk(m, [], false, cur, [".."] + rest, links, true) == Walk(m, [], false, Parent(cur), rest, links, true)
  {
    assert ([".."] + rest)[1..] == rest;
  }

  lemma Turned(m: Tree, rest: seq<string>, links: nat)
    requires ["d", "x"] in m ==> IsDir(m, ["d", "x"])
    ensures Walk(m, [], false, ["d"], ["x", "..", ".."] + rest, links, true) ==
      if ["d", "x"] in m then Walk(m, [], false, [], rest, links, true) else Absent
  {
    var todo, back := ["x", "..", ".."] + rest, [".."] + ([".."] + rest);
    assert todo == ["x"] + back && todo[1..] == back;
    assert ["d"] + ["x"] == ["d", "x"] && Real("x");
    if ["d", "x"] in m {
      Into(m, ["d"], "x", back, links);
      Up(m, ["d", "x"], [".."] + rest, links);
      Up(m, ["d"], rest, links);
      assert Parent(["d", "x"]) == ["d"] && Parent(["d"]) == [];
    }
  }

  /** The symlink leads nowhere as long as there is no /d/x, and to "/" once there is one. */
  lemma TurnLeads(env: Env, m: Tree)
    requires env.maxLinks > 0 && IsDir(m, ["d"]) && ["d", "l"] in m && m[["d", "l"]] == Link(TURN)
    requires ["d", "x"] in m ==> IsDir(m, ["d", "x"])
    ensures ["d", "x"] !in m ==> Locate(env, m, ["d", "l"], true) == Absent
    ensures ["d", "x"] in m ==> Locate(env, m, ["d", "l"], true).Found?
    ensures ["d", "x"] in m && ["f"] !in m ==> Locate(env, m, ["d", "l", "f"], true) == Missing(["f"])
  {
    hide Split, Locate;
    var n := env.maxLinks - 1;
    TurnSplit();
    ThroughLink(env, m, TURN, []);
    ThroughLink(env, m, TURN, ["f"]);
    assert ["d", "l"] + [] == ["d", "l"] && ["d", "l"] + ["f"] == ["d", "l", "f"];
    Turned(m, [], n);
    Turned(m, ["f"], n);
    assert ["f"][1..] == [] && [] + ["f"] == ["f"];
  }

  ghost predicate Turning(env: Env, job: Job, w: World, dir: Entry, file: Entry) {
    && NoFault(env) && FairListing(env) && env.maxLinks > 0 && env.cwd == []
    && w.nodes == Linked(TURN) && job.dst == "/d"
    && dir.kind.Directory? && dir.name == "x"
    && file.kind.Regular? && file.name == "l/f" && file.size <= job.limits.maxEntry
    && 2 <= job.limits.files
  }

  lemma TurningTargets(env: Env, job: Job, w: World, dir: Entry, file: Entry)
    requires Turning(env, job, w, dir, file)
    ensures Hosted(env, job, w) && Contained(job, dir) && Contained(job, file) && At(env, job.dst) == ["d"]
    ensures At(env, PathOf(job, dir)) == ["d", "x"] && At(env, PathOf(job, file)) == ["d", "l", "f"]
  {
    hide PlaceOf, Join, IsPathContained, StatText;
    var c := ["l", "f"];
    assert Text(c) == "l/f" by { assert c[1..] == ["f"]; }
    assert Text(["x"]) == "x" && Real("l") && Real("f") && Real("x");
    Target(env, job, dir, ["x"]);
    Target(env, job, file, c);
    assert ["d"] + c == ["d", "l", "f"] && ["d"] + ["x"] == ["d", "x"];
    LinkedIsTree(TURN);
    DirectoryD(env, job, w);
  }

  /** Each entry alone stays within /d: the directory is made there, and the file cannot be
      written. */
  lemma EachStays(env: Env, job: Job, w: World, dir: Entry, file: Entry)
    requires Turning(env, job, w, dir, file)
    ensures Within(w.nodes, TarExpand(env, job, w, Archive([dir], false)).w.nodes, ["d"])
    ensures Within(w.nodes, TarExpand(env, job, w, Archive([file], false)).w.nodes, ["d"])
  {
    hide Walk, Locate, TarExpand, Join, PlaceOf, IsPathContained, Within, StatText;
    var m := w.nodes;
    TurningTargets(env, job, w, dir, file);
    TurnLeads(env, m);
    ThroughLink(env, m, TURN, []);
    assert Parent(["d", "l", "f"]) == ["d", "l"] && Parent(["d", "l"]) == ["d"] && Parent(["d", "x"]) == ["d"];
    FreeX(env, m);
    assert Touch(env, job, m, dir, true) == Some(["d", "x"]);
    assert Touch(env, job, m, file, true) == None;
    TarStaysIff(env, job, w, dir);
    TarStaysIff(env, job, w, file);
  }

  lemma FreeX(env: Env, m: Tree)
    requires IsDir(m, ["d"]) && ["d", "x"] !in m
    ensures forall follow :: Locate(env, m, ["d", "x"], follow) == Missing(["d", "x"])
  {
    assert ["d", "x"][1..] == ["x"] && ["x"][1..] == [] && [] + ["d"] == ["d"] && ["d"] + ["x"] == ["d", "x"];
    forall follow
      ensures Locate(env, m, ["d", "x"], follow) == Missing(["d", "x"])
    {
      assert Walk(m, [], false, ["d"], ["x"], env.maxLinks, follow) == Missing(["d", "x"]);
    }
  }

  /** The directory entry makes /d/x. */
  lemma DirMade(env: Env, job: Job, w: World, dir: Entry, file: Entry)
    requires Turning(env, job, w, dir, file)
    ensures var s := TarEntry(env, job, StartTar(w), dir);
      && s.ok && s.files == 1 && s.total == 0 && WF(s.w.nodes) && IsDir(s.w.nodes, ["d", "x"])
      && IsDir(s.w.nodes, ["d"]) && Get(s.w.nodes, ["d", "l"]) == Some(Link(TURN)) && ["f"] !in s.w.nodes
  {
    hide Walk, Locate, Join, PlaceOf, IsPathContained, MkdirAll, StatText;
    var m, p := w.nodes, ["d", "x"];
    TurningTargets(env, job, w, dir, file);
    assert Real("d") && Real("x");
    assert ["d", "l"][1] == "l" && p[1] == "x" && ["f"][0] == "f" && p[0] == "d";
    MkdirAllEffect(env, w, p, DIR_MODE);
  }

  /** Both together write /f: whether an entry stays inside depends on the entries before it. */
  lemma TogetherLeave(env: Env, job: Job, w: World, dir: Entry, file: Entry)
    requires Turning(env, job, w, dir, file)
    ensures Contained(job, dir) && Contained(job, file)
    ensures !Within(w.nodes, TarExpand(env, job, w, Archive([dir, file], false)).w.nodes, ["d"])
  {
    hide Walk, Locate, Join, PlaceOf, IsPathContained, TarEntry, TarDirs, StatText, Stub, Within, LinksDown;
    var w1, entries := Tick(Tick(w)), [dir, file];
    TurningTargets(env, job, w, dir, file);
    DstFound(env, job, w);
    DirMade(env, job, w1, dir, file);
    var s1 := TarEntry(env, job, StartTar(w1), dir);
    FileOut(env, job, w, s1, dir, file);
    var s2 := TarEntry(env, job, s1, file);
    assert entries[1..] == [file] && [file][1..] == [];
    assert TarLoop(env, job, s2, []) == s2;
    assert TarLoop(env, job, s1, [file]) == s2;
    assert TarLoop(env, job, StartTar(w1), entries) == s2;
    TarLoopDown(env, job, StartTar(w1), entries);
    TarDirsDown(env, job, s2.w, s2.seen, env.order(s2.seen.Keys));
    assert ["f"] in TarExpand(env, job, w, Archive(entries, false)).w.nodes;
    OutsideD(w.nodes, TarExpand(env, job, w, Archive(entries, false)).w.nodes);
  }

  lemma OutsideD(m: Tree, m2: Tree)
    requires ["f"] !in m && ["f"] in m2
    ensures !Within(m, m2, ["d"])
  {
    assert ["f"][0] == "f" && ["d"][0] == "d";
    assert Get(m, ["f"]) != Get(m2, ["f"]);
  }

  lemma FileOut(env: Env, job: Job, w: World, s: Tar, dir: Entry, file: Entry)
    requires Turning(env, job, w, dir, file) && s.ok && s.files == 1 && s.total == 0 && WF(s.w.nodes)
    requires IsDir(s.w.nodes, ["d"]) && IsDir(s.w.nodes, ["d", "x"]) && ["f"] !in s.w.nodes
    requires Get(s.w.nodes, ["d", "l"]) == Some(Link(TURN))
    ensures ["f"] in TarEntry(env, job, s, file).w.nodes
  {
    hide Walk, Locate, Join, PlaceOf, IsPathContained, TarFile, StatText, Stub;
    TurningTargets(env, job, w, dir, file);
    TurnLeads(env, s.w.nodes);
    assert Parent(["d", "l", "f"]) == ["d", "l"];
    assert Touch(env, job, s.w.nodes, file, true) == Some(["f"]);
    TarFileLands(env, job, s.(headers := s.headers + 1, files := 2), file);
  }
}
