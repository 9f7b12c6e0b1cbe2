/**
  CopyDir and CopyFile of internal/helpers/helpers.go, the copy that CopyDirConfined replaces:
  it follows every symlink wherever it leads, and gives a directory its mode only when it makes
  it.
 */
module PlainCopy {
  import opened Paths
  import opened Os
  import opened Frames
  import opened Confined

  // ------------------------------------------------------------------ the copy, call by call

  function Mode(node: Node): nat {
    match node
    case File(_, perm) => perm
    case Dir(perm) => perm
    case Link(_) => 511  // 0777
  }

  ghost function PlainFile(env: Env, src: seq<string>, dst: Path, w: World): Outcome {
    var from := Locate(env, w.nodes, src, true);
    if env.fault(w.tick) || !from.Found? || from.path !in w.nodes then Outcome(Tick(w), false)
    else
      var o := OpenFile(env, Tick(w), dst, 438);  // 0666
      if o.file.None? then Outcome(o.w, false)
      else PlainFill(env, src, from.path, dst, o.file.value, o.w)
  }

  /** The open file q receives what the file at `from` holds now; reading a directory fails.  The
      mode is the one src has afterwards. */
  ghost function PlainFill(env: Env, src: seq<string>, from: Path, dst: Path, q: Path, w: World): Outcome {
    if !(from in w.nodes && w.nodes[from].File?) then Outcome(Tick(w), false)
    else
      var c := Write(env, w, q, w.nodes[from].data);
      if !c.ok then c
      else match Stat(env, c.w, src)
        case Exists(node) => Chmod(env, Tick(c.w), dst, Mode(node))
        case _ => Outcome(Tick(c.w), false)
  }

  /** The destination directory is made unless something is there. */
  ghost function MakeMissing(env: Env, dst: Path, perm: nat, w: World): Outcome {
    match Stat(env, w, dst)
    case Exists(_) => Outcome(Tick(w), true)
    case NotExist => MkdirAll(env, Tick(w), dst, perm)
    case StatError => Outcome(Tick(w), false)
  }

  /** Where the copy reads: the tree as it stands when the copy begins, the path that is copied,
      and the directory it leads to. */
  datatype Origin = Origin(tree: Tree, src: seq<string>, at: Path)

  function Child(o: Origin, name: string): Origin {
    Origin(o.tree, o.src + [name], o.at + [name])
  }

  ghost function PlainDir(env: Env, o: Origin, dst: Path, w: World): Outcome
    decreases Below(o.tree, o.at), 2
  {
    match Stat(env, w, o.src)
    case Exists(Dir(perm)) =>
      var made := MakeMissing(env, dst, perm, Tick(w));
      if !made.ok then made
      else
        var read := Touchless(env, made.w);
        if read.ok then PlainEntries(env, o, dst, env.listing(o.at, Names(o.tree, o.at)), read.w) else read
    case _ => Outcome(Tick(w), false)
  }

  ghost function PlainEntries(env: Env, o: Origin, dst: Path, names: seq<string>, w: World): Outcome
    decreases Below(o.tree, o.at), 1, |names|
  {
    if names == [] then Outcome(w, true)
    else
      var r := PlainEntry(env, o, dst, names[0], w);
      if r.ok then PlainEntries(env, o, dst, names[1..], r.w) else r
  }

  ghost function PlainEntry(env: Env, o: Origin, dst: Path, name: string, w: World): Outcome
    decreases Below(o.tree, o.at), 0
  {
    if IsDir(o.tree, o.at + [name]) then
      BelowShrinks(o.tree, o.at, name);
      PlainDir(env, Child(o, name), dst + [name], w)
    else PlainFile(env, o.src + [name], dst + [name], w)
  }

  // ------------------------------------------------------------------ what every run keeps

  lemma PlainFillNodes(env: Env, m: Tree, src: seq<string>, from: Path, dst: Path, w: World)
    requires WF(m) && Clear(m, dst) && AllReal(dst) && dst != []
    requires IsDir(m, Parent(dst)) && !IsDir(m, dst)
    requires dst in w.nodes && w.nodes[dst].File? && w.nodes == m[dst := w.nodes[dst]]
    ensures var r := PlainFill(env, src, from, dst, dst, w);
      && dst in r.w.nodes && r.w.nodes[dst].File?
      && r.w.nodes == m[dst := r.w.nodes[dst]]
  {
    hide Locate;
    if from in w.nodes && w.nodes[from].File? {
      WriteEffect(env, w, dst, w.nodes[from].data);
      var c := Write(env, w, dst, w.nodes[from].data);
      var g := c.w.nodes[dst];
      assert c.w.nodes == m[dst := g];
      PutWF(m, dst, g);
      if c.ok && Stat(env, c.w, src).Exists? {
        ChmodEffect(env, Tick(c.w), dst, Mode(Stat(env, c.w, src).node));
      }
    }
  }

  lemma PlainFileKeeps(env: Env, src: seq<string>, dst: Path, w: World)
    requires WF(w.nodes) && NoLinks(w.nodes, dst) && AllReal(dst) && dst != []
    ensures var r, m := PlainFile(env, src, dst, w), w.nodes;
      && Keeps(m, r.w.nodes, dst)
      && (r.ok ==> IsDir(m, Parent(dst)) && !IsDir(m, dst))
  {
    hide Locate;
    var m := w.nodes;
    OpenFileEffect(env, Tick(w), dst, 438);
    var o := OpenFile(env, Tick(w), dst, 438);
    var from := Locate(env, m, src, true);
    if from.Found? && o.file.Some? {
      PlainFillNodes(env, m, src, from.path, dst, o.w);
      FileKeeps(m, dst, PlainFill(env, src, from.path, dst, dst, o.w).w.nodes[dst]);
    }
  }

  lemma MakeMissingEffect(env: Env, dst: Path, perm: nat, w: World)
    requires WF(w.nodes) && NoLinks(w.nodes, dst) && AllReal(dst)
    ensures var r, m := MakeMissing(env, dst, perm, w), w.nodes;
      && Keeps(m, r.w.nodes, dst) && MadeDirs(m, r.w.nodes, dst, env.masked(perm))
      && (r.ok ==> dst in r.w.nodes)
      && (r.ok && dst in m ==> r.w.nodes == m)
      && (env.fault(w.tick) ==> !r.ok)
      && (NoFault(env) && dst !in m ==> (r.ok <==> DirsOnWay(m, dst)))
  {
    hide Walk;
    var m := w.nodes;
    LocateClear(env, m, dst, true);
    MkdirAllEffect(env, Tick(w), dst, perm);
    MadeKeeps(m, m, dst, env.masked(perm));
    MadeKeeps(m, MkdirAll(env, Tick(w), dst, perm).w.nodes, dst, env.masked(perm));
  }

  /** Below a file nothing can be made: any entry of the source fails there. */
  lemma OntoFile(env: Env, o: Origin, dst: Path, name: string, w: World)
    requires WF(w.nodes) && NoLinks(w.nodes, dst) && AllReal(dst) && Real(name)
    requires dst in w.nodes && w.nodes[dst].File?
    ensures var r := PlainEntry(env, o, dst, name, w); !r.ok && r.w.nodes == w.nodes
  {
    hide Locate, Walk;
    var d, m := dst + [name], w.nodes;
    NoLinksDown(m, dst, name);
    NoneBelow(m, dst, d);
    LocateClear(env, m, d, true);
    assert Parent(d) == dst;
    if IsDir(o.tree, o.at + [name]) {
      BelowShrinks(o.tree, o.at, name);
    } else {
      OpenFileEffect(env, Tick(w), d, 438);
    }
  }

  ghost predicate Open(env: Env, tree: Tree, dst: Path, w: World) {
    && FairListing(env) && WF(tree)
    && WF(w.nodes) && NoLinks(w.nodes, dst) && AllReal(dst)
  }

  /** Whatever the symlinks of the source lead to, only dst and what is below it changes, apart
      from missing directories on the way to it. */
  lemma {:induction false} PlainDirKeeps(env: Env, o: Origin, dst: Path, w: World)
    requires Open(env, o.tree, dst, w)
    ensures Keeps(w.nodes, PlainDir(env, o, dst, w).w.nodes, dst)
    decreases Below(o.tree, o.at), 2
  {
    hide Locate, Keeps, NoLinks, Walk;
    KeepsSelf(w.nodes, dst);
    match Stat(env, w, o.src)
    case Exists(Dir(perm)) =>
      MakeMissingEffect(env, dst, perm, Tick(w));
      var made := MakeMissing(env, dst, perm, Tick(w));
      if made.ok && Touchless(env, made.w).ok {
        KeepsOpen(env, o.tree, w.nodes, made.w, dst);
        var read := Touchless(env, made.w);
        var names := env.listing(o.at, Names(o.tree, o.at));
        ListingReal(env, o.tree, o.at);
        PlainEntriesKeep(env, o, dst, names, read.w);
        KeepsTrans(w.nodes, made.w.nodes, PlainEntries(env, o, dst, names, read.w).w.nodes, dst);
      }
    case _ =>
  }

  lemma KeepsSelf(m: Tree, dst: Path)
    requires WF(m) && NoLinks(m, dst)
    ensures Keeps(m, m, dst)
  {
  }

  lemma KeepsOpen(env: Env, tree: Tree, m: Tree, w: World, dst: Path)
    requires FairListing(env) && WF(tree) && AllReal(dst) && Keeps(m, w.nodes, dst)
    ensures Open(env, tree, dst, w)
  {
  }

  lemma {:induction false} PlainEntriesKeep(env: Env, o: Origin, dst: Path, names: seq<string>, w: World)
    requires Open(env, o.tree, dst, w) && RealNames(names) && dst in w.nodes
    ensures var r := PlainEntries(env, o, dst, names, w);
      Keeps(w.nodes, r.w.nodes, dst) && Get(r.w.nodes, dst) == Get(w.nodes, dst)
    decreases Below(o.tree, o.at), 1, |names|
  {
    hide Keeps;
    KeepsSelf(w.nodes, dst);
    if names != [] {
      var r := PlainEntry(env, o, dst, names[0], w);
      PlainEntryKeeps(env, o, dst, names[0], w);
      if r.ok {
        KeepsOpen(env, o.tree, w.nodes, r.w, dst);
        PlainEntriesKeep(env, o, dst, names[1..], r.w);
        KeepsTrans(w.nodes, r.w.nodes, PlainEntries(env, o, dst, names[1..], r.w).w.nodes, dst);
      }
    }
  }

  lemma {:induction false} PlainEntryKeeps(env: Env, o: Origin, dst: Path, name: string, w: World)
    requires Open(env, o.tree, dst, w) && Real(name) && dst in w.nodes
    ensures var r := PlainEntry(env, o, dst, name, w);
      && Keeps(w.nodes, r.w.nodes, dst) && Get(r.w.nodes, dst) == Get(w.nodes, dst)
      && (r.ok ==> IsDir(w.nodes, dst))
      && (IsDir(w.nodes, dst) ==> Keeps(w.nodes, r.w.nodes, dst + [name]))
    decreases Below(o.tree, o.at), 0
  {
    hide Keeps;
    var d := dst + [name];
    KeepsSelf(w.nodes, dst);
    NoLinksDown(w.nodes, dst, name);
    var r := PlainEntry(env, o, dst, name, w);
    if w.nodes[dst].File? {
      OntoFile(env, o, dst, name, w);
    } else {
      assert !w.nodes[dst].Link?;
      if IsDir(o.tree, o.at + [name]) {
        BelowShrinks(o.tree, o.at, name);
        PlainDirKeeps(env, Child(o, name), d, w);
      } else {
        PlainFileKeeps(env, o.src + [name], d, w);
      }
      KeepsUp(w.nodes, r.w.nodes, dst, name);
    }
  }
}
