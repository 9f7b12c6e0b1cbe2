/**
  The machine a program runs on, as an object: its world changes with every call, and the
  worlds it went through are recorded, so that a statement about the record is a statement about
  every point at which the program could have been stopped.
 */
module Hosts {
  import opened Paths
  import opened Os

  /** Every recorded world from `start` on differs from m in the file q only. */
  ghost predicate FileHistory(history: seq<World>, start: nat, m: Tree, q: Path) {
    forall i :: start <= i < |history| ==>
      q in history[i].nodes && history[i].nodes[q].File? && history[i].nodes == m[q := history[i].nodes[q]]
  }

  predicate OpenFileAt(m: Tree, q: Path) {
    q != [] && q in m && m[q].File?
  }

  lemma FileStep(history: seq<World>, history2: seq<World>, start: nat, m: Tree, w: World, w2: World, q: Path)
    requires q in w.nodes && w.nodes == m[q := w.nodes[q]] && start <= |history|
    requires FileHistory(history, start, m, q)
    requires OpenFileAt(w2.nodes, q) && w2.nodes == w.nodes[q := w2.nodes[q]]
    requires history2 == history || history2 == history + [w2]
    ensures FileHistory(history2, start, m, q) && w2.nodes == m[q := w2.nodes[q]] && history <= history2
  {
    assert m[q := w.nodes[q]][q := w2.nodes[q]] == m[q := w2.nodes[q]];
  }

  class Host {
    const env: Env
    var w: World
    ghost var history: seq<World>

    constructor (env: Env, w: World)
      ensures this.env == env && this.w == w && history == [w]
    {
      this.env := env;
      this.w := w;
      history := [w];
    }

    ghost predicate Stepped(before: seq<World>)
      reads this
    {
      history == before + [w]
    }

    method MkdirAll(p: Path, perm: nat) returns (ok: bool)
      modifies this
      ensures Outcome(w, ok) == Os.MkdirAll(env, old(w), p, perm) && Stepped(old(history))
    {
      var r := Os.MkdirAll(env, w, p, perm);
      w, ok := r.w, r.ok;
      history := history + [w];
    }

    method Chmod(p: Path, perm: nat) returns (ok: bool)
      modifies this
      ensures Outcome(w, ok) == Os.Chmod(env, old(w), p, perm) && Stepped(old(history))
    {
      var r := Os.Chmod(env, w, p, perm);
      w, ok := r.w, r.ok;
      history := history + [w];
    }

    method Chtimes(p: Path, times: Times) returns (ok: bool)
      modifies this
      ensures Outcome(w, ok) == Os.Chtimes(env, old(w), p, times) && Stepped(old(history))
    {
      var r := Os.Chtimes(env, w, p, times);
      w, ok := r.w, r.ok;
      history := history + [w];
    }

    method Stat(p: Path) returns (status: Status)
      modifies this
      ensures status == Os.Stat(env, old(w), p) && w == Tick(old(w)) && Stepped(old(history))
    {
      status := Os.Stat(env, w, p);
      w := Tick(w);
      history := history + [w];
    }

    method StatText(s: string) returns (status: Status)
      modifies this
      ensures status == Os.StatText(env, old(w), s) && w == Tick(old(w)) && Stepped(old(history))
    {
      status := Os.StatText(env, w, s);
      w := Tick(w);
      history := history + [w];
    }

    method RemoveAllText(s: string)
      modifies this
      ensures w == Os.RemoveAllText(env, old(w), s) && Stepped(old(history))
    {
      w := Os.RemoveAllText(env, w, s);
      history := history + [w];
    }

    method OpenFile(p: Path, perm: nat) returns (file: Option<Path>)
      modifies this
      ensures Opened(w, file) == Os.OpenFile(env, old(w), p, perm) && Stepped(old(history))
    {
      var r := Os.OpenFile(env, w, p, perm);
      w, file := r.w, r.file;
      history := history + [w];
    }

    method Write(q: Path, data: Bytes) returns (ok: bool)
      modifies this
      ensures Outcome(w, ok) == Os.Write(env, old(w), q, data) && Stepped(old(history))
    {
      var r := Os.Write(env, w, q, data);
      w, ok := r.w, r.ok;
      history := history + [w];
    }

    /** A call that changes nothing but may fail. */
    method Call() returns (ok: bool)
      modifies this
      ensures Outcome(w, ok) == Touchless(env, old(w)) && Stepped(old(history))
    {
      ok := !env.fault(w.tick);
      w := Tick(w);
      history := history + [w];
    }

    method CreateTemp(dir: Path) returns (file: Option<Path>)
      modifies this
      ensures Opened(w, file) == Os.CreateTemp(env, old(w), dir) && Stepped(old(history))
    {
      var r := Os.CreateTemp(env, w, dir);
      w, file := r.w, r.file;
      history := history + [w];
    }

    method CreateNew(p: Path, perm: nat) returns (file: Option<Path>)
      modifies this
      ensures Opened(w, file) == Os.CreateNew(env, old(w), p, perm) && Stepped(old(history))
    {
      var r := Os.CreateNew(env, w, p, perm);
      w, file := r.w, r.file;
      history := history + [w];
    }

    method Remove(p: Path) returns (ok: bool)
      modifies this
      ensures Outcome(w, ok) == Os.Remove(env, old(w), p) && Stepped(old(history))
    {
      var r := Os.Remove(env, w, p);
      w, ok := r.w, r.ok;
      history := history + [w];
    }

    method Rename(p: Path, q: Path) returns (ok: bool)
      modifies this
      ensures Outcome(w, ok) == Os.Rename(env, old(w), p, q) && Stepped(old(history))
    {
      var r := Os.Rename(env, w, p, q);
      w, ok := r.w, r.ok;
      history := history + [w];
    }

    method RemoveAll(p: Path)
      modifies this
      ensures w == Os.RemoveAll(env, old(w), p) && Stepped(old(history))
    {
      w := Os.RemoveAll(env, w, p);
      history := history + [w];
    }

    method Lstat(p: Path) returns (found: Option<Node>)
      modifies this
      ensures w == Tick(old(w)) && Stepped(old(history))
      ensures var r := Locate(env, w.nodes, p, false);
        found == if !env.fault(old(w).tick) && r.Found? then Get(w.nodes, r.path) else None
    {
      var r := Locate(env, w.nodes, p, false);
      found := if !env.fault(w.tick) && r.Found? then Get(w.nodes, r.path) else None;
      w := Tick(w);
      history := history + [w];
    }

    /** os.Open. */
    method Open(p: Path) returns (found: Option<Path>)
      modifies this
      ensures w == Tick(old(w)) && Stepped(old(history))
      ensures var r := Locate(env, w.nodes, p, true);
        found == if !env.fault(old(w).tick) && r.Found? && r.path in w.nodes then Some(r.path) else None
    {
      var r := Locate(env, w.nodes, p, true);
      found := if !env.fault(w.tick) && r.Found? && r.path in w.nodes then Some(r.path) else None;
      w := Tick(w);
      history := history + [w];
    }

    /** os.ReadDir. */
    method ListDir(p: Path) returns (ok: bool, names: seq<string>)
      modifies this
      ensures Outcome(w, ok) == Touchless(env, old(w)) && Stepped(old(history))
      ensures var r := Locate(env, w.nodes, p, true);
        r.Found? ==> names == env.listing(r.path, Names(w.nodes, r.path))
    {
      var r := Locate(env, w.nodes, p, true);
      ok := !env.fault(w.tick);
      names := if r.Found? then env.listing(r.path, Names(w.nodes, r.path)) else [];
      w := Tick(w);
      history := history + [w];
    }

    // ---------------------------------------------------------------- calls on an os.Root

    /** Lstat (follow false), Stat and Open (follow true) of a path relative to the root: the
        node, or a failure. */
    method RootLookup(base: Path, rel: seq<string>, follow: bool) returns (found: Option<Path>)
      modifies this
      ensures w == Tick(old(w)) && Stepped(old(history))
      ensures var r := Walk(w.nodes, base, true, base, rel, env.maxLinks, follow);
        found == if !env.fault(old(w).tick) && r.Found? && r.path in w.nodes then Some(r.path) else None
    {
      var r := Walk(w.nodes, base, true, base, rel, env.maxLinks, follow);
      found := if !env.fault(w.tick) && r.Found? && r.path in w.nodes then Some(r.path) else None;
      w := Tick(w);
      history := history + [w];
    }

    method ReadDir(dir: Path) returns (ok: bool, names: seq<string>)
      modifies this
      ensures Outcome(w, ok) == Touchless(env, old(w)) && Stepped(old(history))
      ensures names == env.listing(dir, Names(w.nodes, dir))
    {
      ok := !env.fault(w.tick);
      names := env.listing(dir, Names(w.nodes, dir));
      w := Tick(w);
      history := history + [w];
    }
  }
}
