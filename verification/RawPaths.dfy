/**
  What path texts lead to as they are written, compared with what they lead to lexically.
 */
module RawPaths {
  import opened Paths
  import opened Os

  /** A real directory is found by its components, and what follows them is resolved from there. */
  lemma WalkFrom(m: Tree, cur: Path, todo: seq<string>, links: nat, follow: bool)
    requires WF(m) && IsDir(m, cur)
    ensures Walk(m, [], false, [], cur + todo, links, follow) == Walk(m, [], false, cur, todo, links, follow)
  {
    assert [] + cur == cur;
    forall q | q in m && q <= cur
      ensures !m[q].Link?
    {
      Ancestors(m, q, cur);
    }
    WalkClear(m, [], cur, links, true);
    if todo == [] {
      assert cur + todo == cur;
      WalkClear(m, [], cur, links, follow);
    } else {
      WalkOn(m, [], false, [], cur, todo, links, follow);
    }
  }

  /** Beyond what is not a directory there is nothing. */
  lemma {:induction false} WalkBlocked(m: Tree, cur: Path, a: seq<string>, b: seq<string>, links: nat, follow: bool)
    requires b != [] && WF(m) && IsDir(m, cur)
    requires var r := Walk(m, [], false, cur, a, links, true); r.Found? ==> r.path in m && m[r.path].File?
    ensures Walk(m, [], false, cur, a + b, links, follow) ==
      match Walk(m, [], false, cur, a, links, true)
      case Missing(_) => Absent
      case Absent => Absent
      case _ => Refused
    decreases links, |a|
  {
    if a != [] {
      var c, rest := a[0], a[1..];
      assert (a + b)[1..] == rest + b;
      if c == "" || c == "." {
        WalkBlocked(m, cur, rest, b, links, follow);
      } else if c == ".." {
        WalkBlocked(m, if cur == [] then cur else Parent(cur), rest, b, links, follow);
      } else if cur + [c] in m {
        match m[cur + [c]]
        case Dir(_) => WalkBlocked(m, cur + [c], rest, b, links, follow);
        case File(_, _) =>
        case Link(target) =>
          if links > 0 {
            assert Split(target) + rest + b == Split(target) + (rest + b);
            WalkBlocked(m, if Rooted(target) then [] else cur, Split(target) + rest, b, links - 1, follow);
          }
      }
    }
  }

  /** Following a symlink at the end makes no difference where there is none. */
  lemma {:induction false} NoLinkAtEnd(m: Tree, cur: Path, todo: seq<string>, links: nat)
    requires var r := Walk(m, [], false, cur, todo, links, false);
      r.Missing? || (r.Found? && IsDir(m, r.path))
    ensures Walk(m, [], false, cur, todo, links, true) == Walk(m, [], false, cur, todo, links, false)
    decreases links, |todo|
  {
    if todo != [] {
      var c, rest := todo[0], todo[1..];
      if c == "" || c == "." {
        NoLinkAtEnd(m, cur, rest, links);
      } else if c == ".." {
        NoLinkAtEnd(m, if cur == [] then cur else Parent(cur), rest, links);
      } else if cur + [c] in m {
        match m[cur + [c]]
        case Dir(_) => NoLinkAtEnd(m, cur + [c], rest, links);
        case File(_, _) =>
        case Link(target) =>
          if links > 0 && rest != [] {
            NoLinkAtEnd(m, if Rooted(target) then [] else cur, Split(target) + rest, links - 1);
          }
      }
    }
  }

  predicate SameKind(a: Node, b: Node) {
    a == b || (a.Dir? && b.Dir?) || (a.File? && b.File?)
  }

  /** What is found stays found in the same place while nothing is deleted or changes its kind or
      its target. */
  lemma {:induction false} WalkKept(m: Tree, m2: Tree, cur: Path, todo: seq<string>, links: nat, follow: bool)
    requires forall p :: p in m ==> p in m2 && SameKind(m[p], m2[p])
    requires Walk(m, [], false, cur, todo, links, follow).Found?
    ensures Walk(m2, [], false, cur, todo, links, follow) == Walk(m, [], false, cur, todo, links, follow)
    decreases links, |todo|
  {
    if todo != [] {
      var c, rest := todo[0], todo[1..];
      if c == "" || c == "." {
        WalkKept(m, m2, cur, rest, links, follow);
      } else if c == ".." {
        WalkKept(m, m2, if cur == [] then cur else Parent(cur), rest, links, follow);
      } else {
        match m[cur + [c]]
        case Dir(_) => WalkKept(m, m2, cur + [c], rest, links, follow);
        case File(_, _) =>
        case Link(target) =>
          if !(rest == [] && !follow) {
            WalkKept(m, m2, if Rooted(target) then [] else cur, Split(target) + rest, links - 1, follow);
          }
      }
    }
  }

  /** A new file makes only itself found. */
  lemma {:induction false} WalkNewFile(m: Tree, t: Path, f: Node, cur: Path, todo: seq<string>, links: nat,
                                       follow: bool)
    requires t !in m && f.File?
    ensures var r := Walk(m, [], false, cur, todo, links, follow);
      var r2 := Walk(m[t := f], [], false, cur, todo, links, follow);
      if r.Found? then r2 == r else r2.Found? ==> r2.path == t
    decreases links, |todo|
  {
    if todo != [] {
      var c, rest := todo[0], todo[1..];
      if c == "" || c == "." {
        WalkNewFile(m, t, f, cur, rest, links, follow);
      } else if c == ".." {
        WalkNewFile(m, t, f, if cur == [] then cur else Parent(cur), rest, links, follow);
      } else if cur + [c] in m {
        match m[cur + [c]]
        case Dir(_) => WalkNewFile(m, t, f, cur + [c], rest, links, follow);
        case File(_, _) =>
        case Link(target) =>
          if links > 0 && !(rest == [] && !follow) {
            WalkNewFile(m, t, f, if Rooted(target) then [] else cur, Split(target) + rest, links - 1, follow);
          }
      }
    }
  }

  /** A directory that is found is not made again, whatever fails. */
  lemma {:induction false} MkdirAllFound(env: Env, w: World, p: Path, perm: nat)
    requires WF(w.nodes) && AllReal(p)
    requires var r := Locate(env, w.nodes, p, true); r.Found? && IsDir(w.nodes, r.path)
    ensures var r := MkdirAll(env, w, p, perm); r.w.nodes == w.nodes && (NoFault(env) ==> r.ok)
    decreases |p|
  {
    hide Walk;
    var m := w.nodes;
    if Locate(env, m, p, false).Missing? {
      NoLinkAtEnd(m, [], p, env.maxLinks);
    }
    if p != [] {
      var up := Parent(p);
      assert p == up + [Last(p)];
      var r := Locate(env, m, up, true);
      LookUp(env, m, up, true);
      if !(r.Found? && IsDir(m, r.path)) {
        WalkBlocked(m, [], up, [Last(p)], env.maxLinks, true);
      }
      MkdirAllFound(env, Tick(w), up, perm);
    }
  }

  // ------------------------------------------------------------------ cleaned texts

  lemma {:induction false} WalkFold(m: Tree, cur: Path, c: Path, links: nat, follow: bool)
    requires WF(m) && IsDir(m, cur) && Normal(false, c)
    ensures Walk(m, [], false, cur, c, links, follow) == Walk(m, [], false, [], Fold(true, cur, c), links, follow)
    decreases |c|
  {
    if c == [] {
      assert cur + [] == cur;
      WalkFrom(m, cur, [], links, follow);
    } else if c[0] == ".." {
      if cur != [] {
        Ancestors(m, Parent(cur), cur);
      }
      NormalTail(c);
      assert cur != [] ==> Last(cur) != "..";
      WalkFold(m, if cur == [] then cur else Parent(cur), c[1..], links, follow);
    } else {
      forall i | 0 <= i < |c|
        ensures Real(c[i])
      {
        NoDots(false, c, i);
      }
      FoldFixed(true, cur, c);
      WalkFrom(m, cur, c, links, follow);
    }
  }

  lemma NormalTail(c: Path)
    requires Normal(false, c) && c != []
    ensures Normal(false, c[1..])
  {
    forall i | 0 <= i < |c[1..]|
      ensures c[1..][i] == c[i + 1] && (i > 0 ==> c[1..][i - 1] == c[i])
    {
    }
  }

  /** A cleaned text leads, by whatever symlinks there are, where its lexical place leads: ".." is
      only at its front, and the current directory is real. */
  lemma CleanLeads(env: Env, m: Tree, s: string, follow: bool)
    requires WF(m) && IsDir(m, env.cwd) && Clean(s) == s && s != ""
    ensures Locate(env, m, RawPath(env.cwd, s), follow) == Locate(env, m, PlaceOf(env.cwd, s), follow)
  {
    var c, base, n := Comps(s), if Rooted(s) then [] else env.cwd, env.maxLinks;
    CompsNormal(s);
    PlaceByComps(env.cwd, s);
    WalkFrom(m, base, Split(s), n, follow);
    CleanSplit(s);
    if Rooted(s) {
      assert [] + c == c;
      NormalEither(c);
      FoldFixed(true, [], c);
    }
    NormalWeak(Rooted(s), c);
    WalkFold(m, base, c, n, follow);
    SkipFront(m, base, Split(s), c, n, follow);
  }

  lemma NormalEither(c: Path)
    requires Normal(true, c)
    ensures Normal(true, [] + c)
  {
    assert [] + c == c;
  }

  lemma NormalWeak(rooted: bool, c: Path)
    requires Normal(rooted, c)
    ensures Normal(false, c)
  {
  }

  /** The components of a cleaned text, as it is written. */
  lemma CleanSplit(s: string)
    requires Clean(s) == s && s != ""
    ensures var c := Comps(s);
      Split(s) == if Rooted(s) then (if c == [] then ["", ""] else [""] + c) else (if c == [] then ["."] else c)
  {
    hide Comps, Fold, Split;
    var c := Comps(s);
    CompsNormal(s);
    if c == [] {
      if Rooted(s) {
        assert s == "/" + Text(c) == "" + "/" + "";
        SplitAppend("", "");
        SplitWord("");
      } else {
        SplitWord(".");
      }
    } else {
      SplitText(c);
      if Rooted(s) {
        assert s == "" + "/" + Text(c);
        SplitAppend("", Text(c));
        SplitWord("");
      }
    }
  }

  /** A rooted text of real components. */
  lemma RootedComps(cwd: Path, s: string, p: Path)
    requires p != [] && AllReal(p) && s == "/" + Text(p)
    ensures Split(s) == [""] + p && Rooted(s) && Comps(s) == p && PlaceOf(cwd, s) == p && Plain(s)
  {
    SplitText(p);
    assert s == "" + "/" + Text(p);
    SplitAppend("", Text(p));
    SplitWord("");
    assert ([""] + p)[1..] == p && [] + p == p;
    FoldFixed(true, [], p);
    assert forall x :: x in [""] + p ==> x == "" || x in p;
  }

  lemma FoldTwo(rooted: bool, kept: Path, a: string, b: string)
    ensures Fold(rooted, kept, [a, b]) == Push(rooted, Push(rooted, kept, a), b)
  {
    hide Push;
    assert [a, b][1..] == [b];
    FoldOne(rooted, Push(rooted, kept, a), b);
  }

  lemma SkipFront(m: Tree, cur: Path, raw: seq<string>, c: Path, links: nat, follow: bool)
    requires raw == c || raw == [""] + c || (c == [] && (raw == ["", ""] || raw == ["."]))
    ensures Walk(m, [], false, cur, raw, links, follow) == Walk(m, [], false, cur, c, links, follow)
  {
    if raw == [""] + c {
      assert raw[1..] == c;
    } else if raw == ["", ""] {
      assert raw[1..] == [""] && [""][1..] == [];
      assert Walk(m, [], false, cur, [""], links, follow) == Walk(m, [], false, cur, [], links, follow);
    } else if raw == ["."] {
      assert raw[1..] == [];
    }
  }

  // ------------------------------------------------------------------ texts without a symlink on their way

  /** The places a text passes through lexically. */
  function Step(cur: Path, cs: seq<string>, i: nat): Path
    requires i <= |cs|
  {
    Fold(true, cur, cs[..i])
  }

  predicate NoLinkAt(m: Tree, p: Path) {
    p in m ==> !m[p].Link?
  }

  /** None of them is a symlink. */
  ghost predicate StraightFrom(m: Tree, cur: Path, cs: seq<string>) {
    forall i: nat :: i <= |cs| ==> NoLinkAt(m, Step(cur, cs, i))
  }

  /** All but the last are directories, and the last exists. */
  ghost predicate Passable(m: Tree, cur: Path, cs: seq<string>) {
    && (forall i: nat :: i < |cs| ==> IsDir(m, Step(cur, cs, i)))
    && Step(cur, cs, |cs|) in m
  }

  lemma StepOn(cur: Path, cs: seq<string>, i: nat)
    requires cs != [] && 0 < i <= |cs|
    ensures Step(cur, cs, i) == Step(Push(true, cur, cs[0]), cs[1..], i - 1)
    ensures Step(cur, cs, 0) == cur
  {
    assert cs[..i][0] == cs[0] && cs[..i][1..] == cs[1..][..i - 1];
  }

  lemma StraightOn(m: Tree, cur: Path, cs: seq<string>)
    requires cs != []
    ensures StraightFrom(m, cur, cs) ==> StraightFrom(m, Push(true, cur, cs[0]), cs[1..])
    ensures Passable(m, cur, cs) <==> IsDir(m, cur) && Passable(m, Push(true, cur, cs[0]), cs[1..])
  {
    var next, rest := Push(true, cur, cs[0]), cs[1..];
    forall i: nat | i <= |rest|
      ensures Step(next, rest, i) == Step(cur, cs, i + 1)
    {
      StepOn(cur, cs, i + 1);
    }
    StepOn(cur, cs, 1);
    if IsDir(m, cur) && Passable(m, next, rest) {
      forall i: nat | i < |cs|
        ensures IsDir(m, Step(cur, cs, i))
      {
        if i > 0 {
          assert IsDir(m, Step(next, rest, i - 1));
        }
      }
    }
    if Passable(m, cur, cs) {
      assert IsDir(m, Step(cur, cs, 0));
      forall i: nat | i < |rest|
        ensures IsDir(m, Step(next, rest, i))
      {
        assert IsDir(m, Step(cur, cs, i + 1));
      }
    }
    if StraightFrom(m, cur, cs) {
      forall i: nat | i <= |rest|
        ensures NoLinkAt(m, Step(next, rest, i))
      {
        assert NoLinkAt(m, Step(cur, cs, i + 1));
      }
    }
  }

  /** Such a text leads to its lexical place, if it leads anywhere; and it leads there exactly if
      it can be passed. */
  lemma {:induction false} WalkStraight(m: Tree, cur: Path, cs: seq<string>, links: nat, follow: bool)
    requires WF(m) && IsDir(m, cur) && NoSlashes(cs) && StraightFrom(m, cur, cs)
    ensures var r := Walk(m, [], false, cur, cs, links, follow);
      && (r.Found? <==> Passable(m, cur, cs))
      && (r.Found? ==> r == Found(Step(cur, cs, |cs|), links))
    decreases |cs|
  {
    hide StraightFrom, Passable;
    if cs == [] {
      assert cs[..0] == [];
      PassableNow(m, cur);
    } else {
      var next, rest := Push(true, cur, cs[0]), cs[1..];
      StraightOn(m, cur, cs);
      StepOn(cur, cs, |cs|);
      NextStraight(m, cur, cs);
      assert |rest| == |cs| - 1;
      if IsDir(m, next) {
        if cs[0] == ".." && cur != [] {
          assert Last(cur) != "..";
        }
        WalkStraight(m, next, rest, links, follow);
      } else {
        StopsAt(m, next, rest);
      }
    }
  }

  lemma PassableNow(m: Tree, cur: Path)
    requires cur in m
    ensures Passable(m, cur, [])
  {
    var none: seq<string> := [];
    assert none[..0] == none;
  }

  lemma NextStraight(m: Tree, cur: Path, cs: seq<string>)
    requires cs != [] && StraightFrom(m, cur, cs)
    ensures NoLinkAt(m, Push(true, cur, cs[0]))
  {
    StepOn(cur, cs, 1);
    assert cs[1..][..0] == [];
    assert NoLinkAt(m, Step(cur, cs, 1));
  }

  /** What is not a directory can be passed only by an empty rest. */
  lemma StopsAt(m: Tree, next: Path, rest: seq<string>)
    requires !IsDir(m, next)
    ensures Passable(m, next, rest) <==> rest == [] && next in m
  {
    assert rest[..0] == [];
    assert Passable(m, next, rest) && rest != [] ==> IsDir(m, Step(next, rest, 0));
  }

  // ------------------------------------------------------------------ slashes and dots at the end

  predicate Idle(tail: seq<string>) {
    forall i :: 0 <= i < |tail| ==> tail[i] == "" || tail[i] == "."
  }

  lemma {:induction false} WalkIdle(m: Tree, cur: Path, tail: seq<string>, links: nat, follow: bool)
    requires Idle(tail)
    ensures Walk(m, [], false, cur, tail, links, follow) == Found(cur, links)
    decreases |tail|
  {
    if tail != [] {
      WalkIdle(m, cur, tail[1..], links, follow);
    }
  }

  predicate Nowhere(r: Walked) {
    r.Missing? || r.Absent?
  }

  /** They make no difference to whether something exists. */
  lemma TailNowhere(m: Tree, cur: Path, a: seq<string>, tail: seq<string>, links: nat)
    requires WF(m) && IsDir(m, cur) && NoSlashes(a) && Idle(tail)
    ensures Nowhere(Walk(m, [], false, cur, a + tail, links, true)) <==>
      Nowhere(Walk(m, [], false, cur, a, links, true))
  {
    hide Walk;
    var r := Walk(m, [], false, cur, a, links, true);
    if tail == [] {
      assert a + tail == a;
    } else {
      MissingIsFree(m, cur, a, links, true);
      if r.Found? && IsDir(m, r.path) {
        WalkOn(m, [], false, cur, a, tail, links, true);
        WalkIdle(m, r.path, tail, r.left, true);
      } else {
        WalkBlocked(m, cur, a, tail, links, true);
      }
    }
  }
}
