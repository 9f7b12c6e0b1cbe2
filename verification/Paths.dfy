/**
  Lexical paths: filepath.Clean and filepath.Join of the Go library as the repository uses
  them, the containment check of internal/helpers/helpers.go, and the proof that the check on
  strings is a statement about path components.
 */
module Paths {

  /** A list of components; as a location in the file system it starts at "/". */
  type Path = seq<string>

  /** A component that names a directory entry. */
  predicate Real(c: string) {
    c != "" && c != "." && c != ".." && '/' !in c
  }

  predicate AllReal(p: Path) {
    forall i :: 0 <= i < |p| ==> Real(p[i])
  }

  predicate NoSlashes(cs: seq<string>) {
    forall i :: 0 <= i < |cs| ==> '/' !in cs[i]
  }

  function Parent(p: Path): Path
    requires p != []
  {
    p[..|p| - 1]
  }

  function Last(p: Path): string
    requires p != []
  {
    p[|p| - 1]
  }

  // ------------------------------------------------------------------ splitting and joining text

  function Split(s: string): (cs: seq<string>)
    ensures |cs| >= 1
    ensures NoSlashes(cs)
  {
    if s == "" then [""]
    else if s[0] == '/' then [""] + Split(s[1..])
    else
      var r := Split(s[1..]);
      [[s[0]] + r[0]] + r[1..]
  }

  /** The components with "/" between them. */
  function Text(cs: seq<string>): string {
    if cs == [] then ""
    else if |cs| == 1 then cs[0]
    else cs[0] + "/" + Text(cs[1..])
  }

  predicate Rooted(s: string) {
    s != "" && s[0] == '/'
  }

  lemma {:induction false} SplitAppend(a: string, b: string)
    ensures Split(a + "/" + b) == Split(a) + Split(b)
  {
    if a == "" {
      assert a + "/" + b == "/" + b;
      assert ("/" + b)[1..] == b;
    } else {
      assert (a + "/" + b)[1..] == a[1..] + "/" + b;
      SplitAppend(a[1..], b);
    }
  }

  lemma {:induction false} SplitWord(c: string)
    requires '/' !in c
    ensures Split(c) == [c]
  {
    if c != "" {
      SplitWord(c[1..]);
      assert c == [c[0]] + c[1..];
    }
  }

  /** Text is injective on non-empty lists of slash-free components: Split undoes it. */
  lemma {:induction false} SplitText(cs: seq<string>)
    requires |cs| > 0 && NoSlashes(cs)
    ensures Split(Text(cs)) == cs
  {
    SplitWord(cs[0]);
    if |cs| > 1 {
      SplitText(cs[1..]);
      SplitAppend(cs[0], Text(cs[1..]));
    }
  }

  // ------------------------------------------------------------------ filepath.Clean

  /** One component of filepath.Clean: what has been kept so far, and the next component. */
  function Push(rooted: bool, kept: Path, c: string): Path {
    if c == "" || c == "." then kept
    else if c == ".." then
      if kept != [] && Last(kept) != ".." then Parent(kept)
      else if rooted then kept
      else kept + [".."]
    else kept + [c]
  }

  function Fold(rooted: bool, kept: Path, cs: seq<string>): Path
    decreases cs
  {
    if cs == [] then kept else Fold(rooted, Push(rooted, kept, cs[0]), cs[1..])
  }

  function Comps(s: string): Path {
    Fold(Rooted(s), [], Split(s))
  }

  function Render(rooted: bool, p: Path): string {
    if rooted then "/" + Text(p) else if p == [] then "." else Text(p)
  }

  function Clean(s: string): string {
    Render(Rooted(s), Comps(s))
  }

  /** filepath.Join of two elements: empty elements are skipped, the result is cleaned. */
  function Join(a: string, b: string): string {
    if a == "" && b == "" then ""
    else if a == "" then Clean(b)
    else Clean(a + "/" + b)
  }

  /** The component lists Clean produces: no empty or "." component, ".." only at the front,
      and not at all in a rooted path. */
  predicate Normal(rooted: bool, p: Path) {
    forall i :: 0 <= i < |p| ==>
      && p[i] != "" && p[i] != "." && '/' !in p[i]
      && (p[i] == ".." ==> !rooted && (i > 0 ==> p[i - 1] == ".."))
  }

  lemma PushNormal(rooted: bool, kept: Path, c: string)
    requires Normal(rooted, kept) && '/' !in c
    ensures Normal(rooted, Push(rooted, kept, c))
  {
  }

  lemma {:induction false} FoldNormal(rooted: bool, kept: Path, cs: seq<string>)
    requires Normal(rooted, kept) && NoSlashes(cs)
    ensures Normal(rooted, Fold(rooted, kept, cs))
    decreases cs
  {
    if cs != [] {
      PushNormal(rooted, kept, cs[0]);
      FoldNormal(rooted, Push(rooted, kept, cs[0]), cs[1..]);
    }
  }

  lemma CompsNormal(s: string)
    ensures Normal(Rooted(s), Comps(s))
  {
    FoldNormal(Rooted(s), [], Split(s));
  }

  lemma {:induction false} FoldAppend(rooted: bool, kept: Path, a: seq<string>, b: seq<string>)
    ensures Fold(rooted, kept, a + b) == Fold(rooted, Fold(rooted, kept, a), b)
    decreases a
  {
    if a == [] {
      assert a + b == b;
    } else {
      assert (a + b)[1..] == a[1..] + b;
      FoldAppend(rooted, Push(rooted, kept, a[0]), a[1..], b);
    }
  }

  /** Folding a list that is already normal only appends it. */
  lemma {:induction false} FoldFixed(rooted: bool, kept: Path, cs: seq<string>)
    requires Normal(rooted, kept + cs)
    ensures Fold(rooted, kept, cs) == kept + cs
    decreases cs
  {
    if cs == [] {
      assert kept + cs == kept;
    } else {
      var c := cs[0];
      var all := kept + cs;
      assert all[|kept|] == c;
      assert kept != [] ==> all[|kept| - 1] == Last(kept);
      assert Push(rooted, kept, c) == kept + [c];
      assert kept + [c] + cs[1..] == kept + cs;
      FoldFixed(rooted, kept + [c], cs[1..]);
    }
  }

  /** Rendering a normal list and reading it back gives the same list. */
  lemma RenderRoundTrip(rooted: bool, p: Path)
    requires Normal(rooted, p)
    ensures Rooted(Render(rooted, p)) == rooted
    ensures Comps(Render(rooted, p)) == p
  {
    if p == [] {
      assert Split("/") == ["", ""] by { SplitAppend("", ""); assert "" + "/" + "" == "/"; }
      assert Fold(true, [], ["", ""]) == [] by { FoldAppend(true, [], [""], [""]); }
      assert Split(".") == ["."] by { SplitWord("."); }
      assert Fold(false, [], ["."]) == [];
      assert "/" + Text(p) == "/";
    } else {
      SplitText(p);
      assert Text(p)[0] == p[0][0];
      assert [] + p == p;
      FoldFixed(rooted, [], p);
      if rooted {
        SplitAppend("", Text(p));
        assert "" + "/" + Text(p) == "/" + Text(p);
        FoldAppend(true, [], [""], p);
        assert Split("") == [""];
        assert Fold(true, [], [""]) == [];
      }
    }
  }

  /** filepath.Clean is idempotent. */
  lemma CleanIdempotent(s: string)
    ensures Clean(Clean(s)) == Clean(s)
  {
    CompsNormal(s);
    RenderRoundTrip(Rooted(s), Comps(s));
  }

  /** Clean is canonical: two paths have the same cleaned text exactly when both or neither are
      rooted and their components are the same. */
  lemma CleanCanonical(a: string, b: string)
    ensures Clean(a) == Clean(b) <==> Rooted(a) == Rooted(b) && Comps(a) == Comps(b)
  {
    CompsNormal(a);
    CompsNormal(b);
    RenderRoundTrip(Rooted(a), Comps(a));
    RenderRoundTrip(Rooted(b), Comps(b));
  }

  // ------------------------------------------------------------------ IsPathContained

  predicate HasPrefix(s: string, prefix: string) {
    prefix <= s
  }

  predicate IsPathContained(path: string, root: string) {
    var cleanPath := Clean(path);
    var cleanRoot := Clean(root);
    if cleanPath == cleanRoot then false
    else if cleanRoot == "/" then HasPrefix(cleanPath, cleanRoot)
    else HasPrefix(cleanPath, cleanRoot + "/")
  }

  /** A slash-free word up to the first "/" is determined by the text. */
  lemma WordPrefix(c: string, d: string, x: string, y: string)
    requires '/' !in c && '/' !in d
    ensures c + "/" + x <= d + "/" + y <==> c == d && x <= y
  {
    var l, r := c + "/" + x, d + "/" + y;
    assert forall i :: 0 <= i < |c| ==> l[i] != '/';
    assert forall i :: 0 <= i < |d| ==> r[i] != '/';
    if l <= r {
      assert l[|c|] == '/' == r[|c|];
      assert l[|d|] == r[|d|] == '/';
      assert c == l[..|c|] && d == r[..|c|];
      assert x == l[|c| + 1..] && y == r[|c| + 1..];
    }
    if c == d && x <= y {
      assert y == x + y[|x|..];
      assert r == l + y[|x|..];
    }
  }

  lemma NoSlashPrefix(x: string, c: string)
    requires '/' !in c
    ensures !(x + "/" <= c)
  {
    assert '/' in x + "/" by { assert (x + "/")[|x|] == '/'; }
  }

  lemma {:induction false} TextPrefix(p: Path, q: Path)
    requires p != [] && NoSlashes(p) && NoSlashes(q)
    requires forall i :: 0 <= i < |q| ==> q[i] != ""
    ensures Text(p) + "/" <= Text(q) <==> p < q
  {
    if q == [] {
    } else if |q| == 1 {
      NoSlashPrefix(Text(p), q[0]);
    } else if |p| == 1 {
      WordPrefix(p[0], q[0], "", Text(q[1..]));
      assert Text(p) + "/" == p[0] + "/" + "";
    } else {
      TextPrefix(p[1..], q[1..]);
      WordPrefix(p[0], q[0], Text(p[1..]) + "/", Text(q[1..]));
      assert Text(p) + "/" == p[0] + "/" + (Text(p[1..]) + "/");
      assert p == [p[0]] + p[1..] && q == [q[0]] + q[1..];
      assert p < q <==> p[0] == q[0] && p[1..] < q[1..];
    }
  }

  /** The containment check on text is containment of components, for every path and root: the
      cleaned root's components are a proper prefix of the path's. A root that cleans to "." is
      the one exception: the check then rejects every path. */
  lemma ContainedIff(path: string, root: string)
    ensures IsPathContained(path, root) <==>
      && Clean(root) != "."
      && Rooted(path) == Rooted(root)
      && Comps(root) < Comps(path)
  {
    CompsNormal(path);
    CompsNormal(root);
    RenderRoundTrip(Rooted(path), Comps(path));
    RenderRoundTrip(Rooted(root), Comps(root));
    CleanCanonical(path, root);
    var p, r := Comps(path), Comps(root);
    if r == [] {
      if Rooted(root) {
        assert Clean(root) == "/";
      } else {
        assert Clean(root) == ".";
        if HasPrefix(Clean(path), "./") {
          assert Clean(path)[0] == '.' && Clean(path)[1] == '/';
          assert p != [];
          DotIsNoComponent(p);
        }
      }
    } else {
      TextPrefix(r, p);
      SlashPrefix(Text(r) + "/", Text(p));
      assert "/" + Text(r) + "/" == "/" + (Text(r) + "/");
      assert Text(r)[0] == r[0][0];
      assert Text(r) + "/" != "";
      if p == [] {
        assert !Rooted(path) ==> Clean(path) == ".";
        assert Rooted(path) ==> Clean(path) == "/";
      } else {
        assert Text(p)[0] == p[0][0];
      }
    }
  }

  lemma SlashPrefix(x: string, y: string)
    ensures "/" + x <= "/" + y <==> x <= y
  {
    assert ("/" + x)[1..] == x && ("/" + y)[1..] == y;
    if x <= y {
      assert y == x + y[|x|..];
      assert "/" + y == ("/" + x) + y[|x|..];
    }
  }

  lemma DotIsNoComponent(p: Path)
    requires p != [] && Normal(false, p)
    ensures !("./" <= Text(p))
  {
    assert Text(p)[0] == p[0][0];
    assert |p[0]| > 1 ==> Text(p)[1] == p[0][1];
    assert p[0] != ".";
  }

  // ------------------------------------------------------------------ locations

  /** The components the operating system walks for the path text s: from the current directory
      unless s is rooted; empty and "." components change nothing. */
  function Kept(cs: seq<string>): seq<string> {
    if cs == [] then []
    else if cs[0] == "" || cs[0] == "." then Kept(cs[1..])
    else [cs[0]] + Kept(cs[1..])
  }

  function OsPath(cwd: Path, s: string): seq<string> {
    (if Rooted(s) then [] else cwd) + Kept(Split(s))
  }

  /** The text has no ".." component, so where it leads does not depend on symlinks before it. */
  predicate Plain(s: string) {
    ".." !in Split(s)
  }

  lemma {:induction false} FoldKept(rooted: bool, kept: Path, cs: seq<string>)
    requires ".." !in cs && NoSlashes(cs)
    ensures Fold(rooted, kept, cs) == kept + Kept(cs)
    ensures AllReal(Kept(cs))
    decreases cs
  {
    if cs == [] {
      assert kept + Kept(cs) == kept;
    } else {
      FoldKept(rooted, Push(rooted, kept, cs[0]), cs[1..]);
      assert forall x | x in cs[1..] :: x in cs;
      if !(cs[0] == "" || cs[0] == ".") {
        assert kept + [cs[0]] + Kept(cs[1..]) == kept + ([cs[0]] + Kept(cs[1..]));
      }
    }
  }

  lemma PlainOsPath(cwd: Path, s: string)
    requires AllReal(cwd) && Plain(s)
    ensures OsPath(cwd, s) == (if Rooted(s) then [] else cwd) + Comps(s)
    ensures AllReal(Comps(s)) && AllReal(OsPath(cwd, s))
  {
    FoldKept(Rooted(s), [], Split(s));
    assert [] + Kept(Split(s)) == Kept(Split(s));
  }

  lemma {:induction false} KeptReal(cs: seq<string>)
    requires AllReal(cs)
    ensures Kept(cs) == cs
  {
    if cs != [] {
      KeptReal(cs[1..]);
    }
  }

  lemma FoldOne(rooted: bool, kept: Path, c: string)
    ensures Fold(rooted, kept, [c]) == Push(rooted, kept, c)
  {
    hide Push;
    assert [c][1..] == [];
  }

  lemma PushBack(rooted: bool, kept: Path, g: Path, c: string)
    requires Normal(false, g)
    ensures Fold(rooted, kept, Push(false, g, c)) == Push(rooted, Fold(rooted, kept, g), c)
  {
    hide Fold;
    if c == ".." && g != [] && Last(g) != ".." {
      assert g == Parent(g) + [Last(g)];
      FoldAppend(rooted, kept, Parent(g), [Last(g)]);
      FoldOne(rooted, Fold(rooted, kept, Parent(g)), Last(g));
    } else if c != "" && c != "." {
      FoldAppend(rooted, kept, g, [c]);
      FoldOne(rooted, Fold(rooted, kept, g), c);
    }
  }

  /** Cleaning a relative path first makes no difference to cleaning it after a prefix. */
  lemma {:induction false} FoldTwice(rooted: bool, kept: Path, cs: seq<string>)
    requires NoSlashes(cs)
    ensures Fold(rooted, kept, cs) == Fold(rooted, kept, Fold(false, [], cs))
    decreases |cs|
  {
    hide Push, Normal;
    if cs != [] {
      var front, c := cs[..|cs| - 1], cs[|cs| - 1];
      assert cs == front + [c];
      FoldTwice(rooted, kept, front);
      FoldAppend(rooted, kept, front, [c]);
      FoldOne(rooted, Fold(rooted, kept, front), c);
      FoldAppend(false, [], front, [c]);
      FoldOne(false, Fold(false, [], front), c);
      EmptyNormal();
      FoldNormal(false, [], front);
      PushBack(rooted, kept, Fold(false, [], front), c);
    }
  }

  lemma EmptyNormal()
    ensures Normal(false, [])
  {
  }

  /** Where a path text leads lexically: its components folded onto the current directory, which a
      rooted text does not begin from. */
  function PlaceOf(cwd: Path, s: string): Path {
    Fold(true, if Rooted(s) then [] else cwd, Split(s))
  }

  /** The cleaned text ends in "..", as "..", "../.." and "a/../.." do. */
  predicate EndsUp(s: string) {
    Comps(s) != [] && Last(Comps(s)) == ".."
  }

  lemma PlaceByComps(cwd: Path, s: string)
    requires AllReal(cwd)
    ensures PlaceOf(cwd, s) == Fold(true, if Rooted(s) then [] else cwd, Comps(s))
    ensures AllReal(PlaceOf(cwd, s))
  {
    var base := if Rooted(s) then [] else cwd;
    FoldNormal(true, base, Split(s));
    NormalReal(true, PlaceOf(cwd, s));
    CompsNormal(s);
    if Rooted(s) {
      assert [] + Comps(s) == Comps(s);
      FoldFixed(true, [], Comps(s));
    } else {
      FoldTwice(true, base, Split(s));
    }
  }

  lemma PlaceOfClean(cwd: Path, s: string)
    requires AllReal(cwd)
    ensures PlaceOf(cwd, Clean(s)) == PlaceOf(cwd, s)
  {
    CompsNormal(s);
    RenderRoundTrip(Rooted(s), Comps(s));
    PlaceByComps(cwd, s);
    PlaceByComps(cwd, Clean(s));
  }

  lemma PlainPlace(cwd: Path, s: string)
    requires AllReal(cwd) && Plain(s)
    ensures PlaceOf(cwd, s) == OsPath(cwd, s) == (if Rooted(s) then [] else cwd) + Comps(s)
    ensures AllReal(Comps(s)) && !EndsUp(s)
  {
    FoldKept(true, if Rooted(s) then [] else cwd, Split(s));
    PlainOsPath(cwd, s);
  }

  /** A contained path leads properly below the root, wherever the process runs, and by real
      names only, unless the root ends in "..". */
  lemma ContainedLocation(cwd: Path, path: string, root: string)
    requires AllReal(cwd) && !EndsUp(root)
    requires IsPathContained(path, root)
    ensures Comps(root) < Comps(path)
    ensures var r := Comps(path)[|Comps(root)|..];
      && r != [] && AllReal(r) && Comps(path) == Comps(root) + r
      && PlaceOf(cwd, path) == PlaceOf(cwd, root) + r
  {
    ContainedIff(path, root);
    CompsNormal(path);
    CompsNormal(root);
    var c, p := Comps(root), Comps(path);
    var r := p[|c|..];
    assert p == c + r;
    assert c == [] ==> Rooted(path);
    forall i | 0 <= i < |r|
      ensures Real(r[i])
    {
      BelowRoot(Rooted(path), c, p, |c| + i);
      assert p[|c| + i] == r[i];
    }
    var base := if Rooted(root) then [] else cwd;
    PlaceByComps(cwd, path);
    PlaceByComps(cwd, root);
    FoldAppend(true, base, c, r);
    FoldFixed(true, PlaceOf(cwd, root), r);
  }

  lemma NormalPrefix(rooted: bool, p: Path, q: Path)
    requires Normal(rooted, p) && q <= p
    ensures Normal(rooted, q)
  {
    forall i | 0 <= i < |q|
      ensures q[i] == p[i]
    {
    }
  }

  lemma {:induction false} BelowRoot(rooted: bool, c: Path, p: Path, i: nat)
    requires Normal(rooted, p) && c < p && |c| <= i < |p|
    requires rooted || (c != [] && Last(c) != "..")
    ensures Real(p[i])
  {
    if p[i] == ".." && i > |c| {
      BelowRoot(rooted, c, p, i - 1);
    }
  }

  /** A rendered list of real names leads to those names, from "/" or from where the process runs. */
  lemma RenderLocation(cwd: Path, rooted: bool, p: Path)
    requires AllReal(p)
    ensures OsPath(cwd, Render(rooted, p)) == (if rooted then [] else cwd) + p
  {
    var s := Render(rooted, p);
    if p == [] {
      if rooted {
        assert "/" + Text(p) == "" + "/" + "";
        SplitAppend("", "");
        assert Split(s) == ["", ""];
        assert Kept(["", ""]) == Kept([""]) == [];
      } else {
        SplitWord(".");
        assert Kept(["."]) == Kept([]) == [];
        assert cwd + [] == cwd + p;
      }
    } else {
      SplitText(p);
      KeptReal(p);
      assert Text(p)[0] == p[0][0];
      if rooted {
        SplitAppend("", Text(p));
        assert "" + "/" + Text(p) == "/" + Text(p);
        assert Split("") == [""];
        assert ([""] + p)[1..] == p;
        assert Kept([""] + p) == p;
      }
    }
  }

  /** In a normal list, a real first component (or a rooted path) excludes ".." everywhere. */
  lemma NormalReal(rooted: bool, p: Path)
    requires Normal(rooted, p)
    requires rooted || (p != [] && p[0] != "..")
    ensures AllReal(p)
  {
    forall i | 0 <= i < |p|
      ensures Real(p[i])
    {
      NoDots(rooted, p, i);
    }
  }

  lemma {:induction false} NoDots(rooted: bool, p: Path, i: nat)
    requires Normal(rooted, p) && i < |p|
    requires rooted || p[0] != ".."
    ensures p[i] != ".."
  {
    var c := p[i];
    assert c == ".." ==> !rooted && (i > 0 ==> p[i - 1] == "..");
    if i > 0 {
      NoDots(rooted, p, i - 1);
    }
  }
}
