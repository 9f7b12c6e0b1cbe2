/**
  gather/git/git.go: GetPinnedURL, processUrl and extractKeyFromQuery, and the promise that a
  pinned URL selects the same repository and directory as the URL it was made from.
 */
module GitPins {
  import opened Paths
  import opened Os
  import opened Strings
  import opened Pins

  const GIT_SCHEMES := ["git::", "git://", "https://"]
  const SOURCE_SCHEMES := ["git://", "git::", "https://", "file://", "file::"]

  // ------------------------------------------------------------------ GetPinnedURL

  /** The URL without schemes, with host:path made host/path, and without its ref. */
  function GitBase(u: string): string {
    var s := Strip(u, GIT_SCHEMES);
    var t := if "git@" <= s then ReplaceFirst(Before(s[4..], "git@"), ':', '/') else s;
    Before(t, "?ref=")
  }

  function GitPin(u: string, commit: string): Option<string> {
    if u == "" || commit == "" then None else Some("git::" + GitBase(u) + "?ref=" + commit)
  }

  method PinGit(u: string, latestCommit: string) returns (r: Option<string>)
    ensures r == GitPin(u, latestCommit)
    ensures r.None? <==> u == "" || latestCommit == ""
  {
    if |u| == 0 || latestCommit == "" {
      return None;
    }
    var s := StripSchemes(u, GIT_SCHEMES);
    if "git@" <= s {
      s := ReplaceFirst(Before(s[4..], "git@"), ':', '/');
    }
    r := Some("git::" + Before(s, "?ref=") + "?ref=" + latestCommit);
  }

  lemma {:induction false} Replaced1(s: string, c: char, d: char, i: nat)
    requires i < |s|
    ensures var r := ReplaceFirst(s, c, d);
      && (s[i] != c ==> r[i] == s[i])
      && (r[i] != c && r[i] != d ==> s[i] == r[i])
  {
    if i > 0 && s[0] != c {
      Replaced1(s[1..], c, d, i - 1);
    }
  }

  /** What is left after pinning never begins like an SCP address. */
  lemma BaseIsNotScp(u: string)
    ensures !("git@" <= GitBase(u))
  {
    var s := Strip(u, GIT_SCHEMES);
    if "git@" <= s {
      var x := Before(s[4..], "git@");
      var t := ReplaceFirst(x, ':', '/');
      BeforeHasNone(s[4..], "git@");
      FindIsFirst(x, "git@");
      if 4 <= |x| {
        assert !Occurs(x, "git@", 0);
        assert x[0..4] != "git@";
        Replaced1(x, ':', '/', 0);
        Replaced1(x, ':', '/', 1);
        Replaced1(x, ':', '/', 2);
        Replaced1(x, ':', '/', 3);
        assert x[0..4] == [x[0], x[1], x[2], x[3]];
      }
      assert !("git@" <= t);
    }
  }

  /** Pinning a pinned git URL changes nothing exactly when what is left after stripping does not
      begin with a scheme itself. */
  lemma GitRepinIff(u: string, commit: string)
    requires u != "" && commit != ""
    ensures var b := GitBase(u);
      GitPin(GitPin(u, commit).value, commit) == GitPin(u, commit) <==> !("git://" <= b) && !("https://" <= b)
  {
    hide GitBase;
    var b := GitBase(u);
    var p := GitPin(u, commit).value;
    BaseIsNotScp(u);
    BaseHasNoRef(u);
    StripPinned(b, commit);
    var b2 := TrimPrefix(TrimPrefix(b, "git://"), "https://");
    if "git://" <= b || "https://" <= b {
      assert |b2| <= |b| - 6;
      BaseIsShort(p, b2, commit);
      assert |GitBase(p)| < |b|;
      assert |"git::" + GitBase(p) + "?ref=" + commit| != |"git::" + b + "?ref=" + commit|;
    } else {
      PlainBase(p, b, commit);
    }
  }

  lemma BaseHasNoRef(u: string)
    ensures !Contains(GitBase(u), "?ref=")
  {
    var s := Strip(u, GIT_SCHEMES);
    var t := if "git@" <= s then ReplaceFirst(Before(s[4..], "git@"), ':', '/') else s;
    BeforeHasNone(t, "?ref=");
  }

  lemma StripPinned(b: string, commit: string)
    ensures Strip("git::" + b + "?ref=" + commit, GIT_SCHEMES) ==
      TrimPrefix(TrimPrefix(b, "git://"), "https://") + "?ref=" + commit
  {
    hide TrimPrefix, Strip;
    var rest := "ref=" + commit;
    var t := b + ['?'] + rest;
    var b1 := TrimPrefix(b, "git://");
    var b2 := TrimPrefix(b1, "https://");
    WithRef(b, commit);
    WithRef(b2, commit);
    assert "git::" + b + "?ref=" + commit == "git::" + (b + "?ref=" + commit);
    Strip3("git::" + t, "git::", "git://", "https://");
    Trimmed("git::", t);
    TrimInside("git://", b, '?', rest);
    TrimInside("https://", b1, '?', rest);
  }

  lemma WithRef(b: string, commit: string)
    ensures b + ['?'] + ("ref=" + commit) == b + "?ref=" + commit
  {
    assert "?ref=" + commit == ['?'] + ("ref=" + commit);
  }

  lemma PlainBase(p: string, b: string, commit: string)
    requires Strip(p, GIT_SCHEMES) == b + "?ref=" + commit
    requires !("git@" <= b) && !Contains(b, "?ref=")
    ensures GitBase(p) == b
  {
    assert b + "?ref=" + commit == b + ['?'] + ("ref=" + commit);
    PrefixInside("git@", b, '?', "ref=" + commit);
    FindAfter(b, "?ref=", commit);
  }

  lemma BaseIsShort(p: string, b2: string, commit: string)
    requires Strip(p, GIT_SCHEMES) == b2 + "?ref=" + commit
    ensures |GitBase(p)| <= |b2| + 5
  {
    var s := b2 + "?ref=" + commit;
    assert s[|b2|..|b2| + 5] == "?ref=";
    if "git@" <= s {
      assert s == b2 + ['?'] + ("ref=" + commit);
      PrefixInside("git@", b2, '?', "ref=" + commit);
      var x := Before(s[4..], "git@");
      var y := ReplaceFirst(x, ':', '/');
      var i := |b2| - 4;
      if |x| > |b2| + 5 {
        forall k | 0 <= k < 5
          ensures y[i + k] == "?ref="[k]
        {
          assert x[i + k] == s[|b2| + k] == s[|b2|..|b2| + 5][k];
          Replaced1(x, ':', '/', i + k);
        }
        assert y[i..i + 5] == "?ref=";
        FindAt(y, "?ref=", i);
      }
    } else {
      FindAt(s, "?ref=", |b2|);
    }
  }

  // ------------------------------------------------------------------ processUrl

  datatype GitSource = GitSource(src: string, ref: string, subdir: string, depth: string)

  /** host:path after git@ becomes https://host/path. */
  function Rewritten(raw: string): string {
    if "git@" <= raw then "https://" + ReplaceFirst(raw[4..], ':', '/') else raw
  }

  predicate Letter(c: char) {
    'a' <= c <= 'z' || 'A' <= c <= 'Z'
  }

  /** What filePathPattern matches at the beginning of the text; its second alternative has an
      unescaped dot, so it takes any character but a line break after the first one. */
  predicate FilePattern(s: string) {
    || "./" <= s
    || (|s| >= 3 && s[0] == '.' && s[1] != '\n' && s[2] == '/')
    || "/" <= s
    || (|s| >= 3 && Letter(s[0]) && s[1] == ':' && s[2] == '\\')
    || "~/" <= s
  }

  /** The first value of a key in a query of plain parameters. */
  function QueryGet(query: string, key: string): string
    decreases |query|
  {
    var part, rest := Before(query, "&"), After(query, "&");
    if Contains(part, "=") && Before(part, "=") == key then After(part, "=")
    else if rest == "" then ""
    else QueryGet(rest, key)
  }

  predicate HasSuffix(s: string, suffix: string) {
    |suffix| <= |s| && s[|s| - |suffix|..] == suffix
  }

  /** A text has a suffix when it is something followed by it. */
  lemma SuffixIff(s: string, suffix: string)
    ensures HasSuffix(s, suffix) <==> exists a: string :: s == a + suffix
  {
    if HasSuffix(s, suffix) {
      assert s == s[..|s| - |suffix|] + suffix;
    }
  }

  /** Rooted, relative, home and drive paths are local, and a host is not, unless it is one character
      after a dot. */
  lemma LocalPaths(s: string)
    ensures forall p :: p in ["/", "./", "../", "~/", "C:\\", "z:\\"] ==> FilePattern(p + s)
    ensures s != "" && Letter(s[0]) && ':' !in s ==> !FilePattern(s)
  {
    assert forall p: string :: p in ["/", "./", "../", "~/", "C:\\", "z:\\"] ==> p <= p + s;
    assert ("../" + s)[2] == '/' && ("C:\\" + s)[2] == '\\' && ("z:\\" + s)[2] == '\\';
    assert |s| >= 2 ==> s[1] in s;
  }

  /** extractKeyFromQuery: a value may carry a subdirectory after "//". */
  function ExtractKey(query: string, key: string, subdir: string): (string, string) {
    var value := QueryGet(query, key);
    if Contains(value, "//") then (Before(value, "//"), After(value, "//")) else (value, subdir)
  }

  /** processUrl, once the prefixes are gone: a URL of plain characters has its query after the
      first "?" and its path from the first "/". */
  function ProcessStripped(s: string): GitSource {
    var file := FilePattern(s) || "file://" <= s;
    var left, query := Before(s, "?"), After(s, "?");
    var host := Before(left, "/");
    var path := left[|host|..];
    var (ref, subdir) := ExtractKey(query, "ref", "");
    var (depth, subdir1) := ExtractKey(query, "depth", subdir);
    var split := Contains(path, "//");
    var path1 := if split then Before(path, "//") else path;
    var subdir2 := if split then After(path, "//") else subdir1;
    var path2 := if !HasSuffix(path1, ".git") && !file then path1 + ".git" else path1;
    GitSource((if file then "file://" else "https://") + host + path2, ref, subdir2, depth)
  }

  function ProcessUrl(raw: string): GitSource {
    ProcessStripped(Strip(Rewritten(raw), SOURCE_SCHEMES))
  }

  method ProcessRawUrl(source: string) returns (src: string, ref: string, subdir: string, depth: string)
    ensures GitSource(src, ref, subdir, depth) == ProcessUrl(source)
  {
    hide Find, QueryGet, Strip;
    var rawSource := source;
    if "git@" <= rawSource {
      rawSource := TrimPrefix(rawSource, "git@");
      rawSource := ReplaceFirst(rawSource, ':', '/');
      rawSource := "https://" + rawSource;
    }
    rawSource := StripSchemes(rawSource, SOURCE_SCHEMES);
    var scheme := if FilePattern(rawSource) || "file://" <= rawSource then "file://" else "https://";
    var left, query := Before(rawSource, "?"), After(rawSource, "?");
    var host := Before(left, "/");
    var path := left[|host|..];
    subdir := "";
    ref, subdir := ExtractKeyFromQuery(query, "ref", subdir);
    depth, subdir := ExtractKeyFromQuery(query, "depth", subdir);
    if Contains(path, "//") {
      subdir := After(path, "//");
      path := Before(path, "//");
    }
    if !HasSuffix(path, ".git") && scheme == "https://" {
      path := path + ".git";
    }
    src := scheme + host + path;
  }

  method ExtractKeyFromQuery(query: string, key: string, oldSubdir: string) returns (value: string, subdir: string)
    ensures (value, subdir) == ExtractKey(query, key, oldSubdir)
  {
    value := QueryGet(query, key);
    subdir := oldSubdir;
    if Contains(value, "//") {
      subdir := After(value, "//");
      value := Before(value, "//");
    }
  }

  // ------------------------------------------------------------------ the grammar

  /** The unreserved characters of section 2.3 of RFC 3986. */
  predicate Unreserved(c: char) {
    Letter(c) || '0' <= c <= '9' || c in "-._~"
  }

  predicate Word(s: string) {
    s != "" && forall i :: 0 <= i < |s| ==> Unreserved(s[i])
  }

  predicate Words(ws: seq<string>) {
    forall i :: 0 <= i < |ws| ==> Word(ws[i])
  }

  datatype Prefix =
    | Bare
    | Https
    | GitColon
    | GitColonHttps
    | GitSlash
    | Scp
    | FileSlash
    | FileColon
    | GitFileSlash
    | GitFileColon

  /** The query: ref and depth, each at most once, in either order. */
  datatype Query =
    | NoQuery
    | RefOnly(ref: string)
    | DepthOnly(depth: string)
    | RefDepth(ref: string, depth: string)
    | DepthRef(depth: string, ref: string)

  /** A git URL: a prefix, host (none in a rooted local path) and path, an optional subdirectory and a query. */
  datatype GitUrl = GitUrl(prefix: Prefix, host: string, path: seq<string>, subdir: seq<string>, query: Query)

  function RefOf(u: GitUrl): string {
    match u.query
    case RefOnly(r) => r
    case RefDepth(r, _) => r
    case DepthRef(_, r) => r
    case _ => ""
  }

  function DepthOf(u: GitUrl): string {
    match u.query
    case DepthOnly(d) => d
    case RefDepth(_, d) => d
    case DepthRef(d, _) => d
    case _ => ""
  }

  predicate DepthFirst(u: GitUrl) {
    u.query.DepthOnly? || u.query.DepthRef?
  }

  predicate Value(s: string) {
    forall i :: 0 <= i < |s| ==> Unreserved(s[i]) || s[i] == '/'
  }

  /** Values as pinning makes them: they may contain "?" and "=". */
  predicate WideValue(s: string) {
    forall i :: 0 <= i < |s| ==> Unreserved(s[i]) || s[i] in "/?="
  }

  predicate GoodUrl(u: GitUrl) {
    WideUrl(u) && Value(RefOf(u)) && Value(DepthOf(u))
  }

  predicate WideUrl(u: GitUrl) {
    && (u.host == "" || Word(u.host)) && u.path != [] && Words(u.path) && Words(u.subdir)
    && WideValue(RefOf(u)) && WideValue(DepthOf(u))
  }

  function Tail(u: GitUrl): string {
    Text(u.path) + (if u.subdir == [] then "" else "//" + Text(u.subdir))
  }

  function Address(u: GitUrl): string {
    u.host + "/" + Tail(u)
  }

  function QueryText(u: GitUrl): string {
    if u.query.NoQuery? then "" else "?" + Parameters(u)
  }

  function Parameters(u: GitUrl): string {
    match u.query
    case NoQuery => ""
    case RefOnly(r) => "ref=" + r
    case DepthOnly(d) => "depth=" + d
    case RefDepth(r, d) => "ref=" + r + "&" + ("depth=" + d)
    case DepthRef(d, r) => "depth=" + d + "&" + ("ref=" + r)
  }

  function UrlText(u: GitUrl): string {
    match u.prefix
    case Bare => Address(u) + QueryText(u)
    case Https => "https://" + (Address(u) + QueryText(u))
    case GitColon => "git::" + (Address(u) + QueryText(u))
    case GitColonHttps => "git::" + ("https://" + (Address(u) + QueryText(u)))
    case GitSlash => "git://" + (Address(u) + QueryText(u))
    case Scp => "git@" + (u.host + ":" + Tail(u) + QueryText(u))
    case FileSlash => "file://" + (Address(u) + QueryText(u))
    case FileColon => "file::" + (Address(u) + QueryText(u))
    case GitFileSlash => "git::" + ("file://" + (Address(u) + QueryText(u)))
    case GitFileColon => "git::" + ("file::" + (Address(u) + QueryText(u)))
  }

  lemma {:induction false} TextChars(ws: seq<string>)
    requires Words(ws)
    ensures forall i :: 0 <= i < |Text(ws)| ==> Unreserved(Text(ws)[i]) || Text(ws)[i] == '/'
  {
    if |ws| > 1 {
      TextChars(ws[1..]);
    }
  }

  /** The text up to the query has unreserved characters and "/" only. */
  lemma PlainChars(u: GitUrl)
    requires WideUrl(u)
    ensures forall c :: c in Address(u) ==> Unreserved(c) || c == '/'
    ensures forall c :: c in Address(u) + QueryText(u) ==> Unreserved(c) || c in "/?=&"
  {
    TextChars(u.path);
    TextChars(u.subdir);
    ParameterChars(u);
  }

  lemma ParameterChars(u: GitUrl)
    requires WideUrl(u)
    ensures forall c :: c in QueryText(u) ==> Unreserved(c) || c in "/?=&"
  {
    var r, d := RefOf(u), DepthOf(u);
    assert forall c :: c in r ==> Unreserved(c) || c in "/?=";
    assert forall c :: c in d ==> Unreserved(c) || c in "/?=";
    assert forall c :: c in "?ref=&depth=" ==> Unreserved(c) || c in "/?=&";
    forall c | c in QueryText(u)
      ensures c in r || c in d || c in "?ref=&depth="
    {
    }
  }

  lemma NoColon(s: string, p: string, i: nat)
    requires i < |p| && p[i] !in s
    ensures !(p <= s) && TrimPrefix(s, p) == s
  {
    if |p| <= |s| {
      assert s[i] in s;
    }
  }

  // ------------------------------------------------------------------ stripping the prefixes

  /** A text without a colon begins with none of the schemes. */
  lemma NoScheme(s: string)
    requires ':' !in s
    ensures TrimPrefix(s, "git://") == s && TrimPrefix(s, "git::") == s && TrimPrefix(s, "https://") == s
    ensures TrimPrefix(s, "file://") == s && TrimPrefix(s, "file::") == s
  {
    NoColon(s, "git://", 3);
    NoColon(s, "git::", 3);
    NoColon(s, "https://", 5);
    NoColon(s, "file://", 4);
    NoColon(s, "file::", 4);
  }

  lemma NoColonOrAt(u: GitUrl)
    requires WideUrl(u)
    ensures ':' !in Address(u) + QueryText(u) && '@' !in Address(u) + QueryText(u)
  {
    hide Text;
    PlainChars(u);
  }

  lemma SourceStripped(u: GitUrl)
    requires WideUrl(u)
    ensures Strip(Rewritten(UrlText(u)), SOURCE_SCHEMES) == Address(u) + QueryText(u)
  {
    hide WideUrl, Text, Address, Tail, QueryText, Strip, Find, TrimPrefix;
    var s := Address(u) + QueryText(u);
    NoColonOrAt(u);
    var r := Rewritten(UrlText(u));
    if u.prefix.Scp? {
      ScpUrlText(u);
      ScpRewritten(u);
      assert r == "https://" + s;
    } else {
      NotScp(u);
    }
    Strip5(r);
    NoScheme(s);
    HttpsStrips(s);
    match u.prefix
    case Bare =>
    case Https =>
    case Scp =>
    case GitColon => NotPrefix("git://", "git::" + s, 4); Trimmed("git::", s);
    case GitColonHttps =>
      NotPrefix("git://", "git::" + ("https://" + s), 4);
      Trimmed("git::", "https://" + s);
    case GitSlash => Trimmed("git://", s);
    case FileSlash => FileStrips(s);
    case FileColon => FileStrips(s);
    case GitFileSlash =>
      NotPrefix("git://", "git::" + ("file://" + s), 4);
      Trimmed("git::", "file://" + s);
      FileStrips(s);
    case GitFileColon =>
      NotPrefix("git://", "git::" + ("file::" + s), 4);
      Trimmed("git::", "file::" + s);
      FileStrips(s);
  }

  /** The schemes of git and https do not begin a file URL. */
  lemma FileStrips(s: string)
    ensures forall t :: t in ["file://" + s, "file::" + s] ==>
      TrimPrefix(t, "git://") == t && TrimPrefix(t, "git::") == t && TrimPrefix(t, "https://") == t
    ensures TrimPrefix("file://" + s, "file://") == s
    ensures TrimPrefix("file::" + s, "file://") == "file::" + s && TrimPrefix("file::" + s, "file::") == s
  {
    hide TrimPrefix;
    Trimmed("file://", s);
    Trimmed("file::", s);
    NotPrefix("file://", "file::" + s, 5);
    forall t | t in ["file://" + s, "file::" + s]
      ensures TrimPrefix(t, "git://") == t && TrimPrefix(t, "git::") == t && TrimPrefix(t, "https://") == t
    {
      assert t[0] == 'f';
      NotPrefix("git://", t, 0);
      NotPrefix("git::", t, 0);
      NotPrefix("https://", t, 0);
    }
  }

  lemma HttpsStrips(s: string)
    ensures var t := "https://" + s;
      TrimPrefix(t, "git://") == t && TrimPrefix(t, "git::") == t && TrimPrefix(t, "https://") == s
  {
    NotPrefix("git://", "https://" + s, 0);
    NotPrefix("git::", "https://" + s, 0);
    Trimmed("https://", s);
  }

  lemma Strip5(s: string)
    ensures Strip(s, SOURCE_SCHEMES) ==
      TrimPrefix(TrimPrefix(TrimPrefix(TrimPrefix(TrimPrefix(s, "git://"), "git::"), "https://"), "file://"), "file::")
  {
    var s1 := TrimPrefix(s, "git://");
    assert SOURCE_SCHEMES[1..] == ["git::", "https://", "file://", "file::"];
    var s2 := TrimPrefix(s1, "git::");
    assert ["git::", "https://", "file://", "file::"][1..] == ["https://", "file://", "file::"];
    assert Strip(s, SOURCE_SCHEMES) == Strip(s1, ["git::", "https://", "file://", "file::"]);
    assert Strip(s1, ["git::", "https://", "file://", "file::"]) == Strip(s2, ["https://", "file://", "file::"]);
    Strip3(s2, "https://", "file://", "file::");
  }

  lemma NotScp(u: GitUrl)
    requires WideUrl(u) && !u.prefix.Scp?
    ensures Rewritten(UrlText(u)) == UrlText(u)
  {
    hide Text;
    var s := Address(u) + QueryText(u);
    PlainChars(u);
    match u.prefix
    case Bare => NoColon(s, "git@", 3);
    case Https => NotPrefix("git@", "https://" + s, 0);
    case GitColon => NotPrefix("git@", "git::" + s, 3);
    case GitColonHttps => NotPrefix("git@", "git::" + ("https://" + s), 3);
    case GitSlash => NotPrefix("git@", "git://" + s, 3);
    case FileSlash => NotPrefix("git@", "file://" + s, 0);
    case FileColon => NotPrefix("git@", "file::" + s, 0);
    case GitFileSlash => NotPrefix("git@", "git::" + ("file://" + s), 3);
    case GitFileColon => NotPrefix("git@", "git::" + ("file::" + s), 3);
  }

  lemma {:induction false} ReplaceAt(a: string, c: char, b: string, d: char)
    requires c !in a
    ensures ReplaceFirst(a + [c] + b, c, d) == a + [d] + b
  {
    var s := a + [c] + b;
    if a == "" {
      assert s[1..] == b;
    } else {
      assert s[1..] == a[1..] + [c] + b;
      ReplaceAt(a[1..], c, b, d);
    }
  }

  /** The text after git@ of an SCP address. */
  function ScpText(u: GitUrl): string {
    u.host + ([':'] + (Tail(u) + QueryText(u)))
  }

  lemma ScpPlain(u: GitUrl)
    ensures Address(u) + QueryText(u) == u.host + ['/'] + (Tail(u) + QueryText(u))
  {
    hide Tail, QueryText;
  }

  lemma ScpUrlText(u: GitUrl)
    requires u.prefix.Scp?
    ensures UrlText(u) == "git@" + ScpText(u)
    ensures "git@" <= UrlText(u) && UrlText(u)[4..] == ScpText(u)
  {
    hide Tail, QueryText, Address;
    assert u.host + ":" + Tail(u) + QueryText(u) == ScpText(u);
  }

  lemma ScpNoAt(u: GitUrl)
    requires WideUrl(u)
    ensures '@' !in ScpText(u)
  {
    PlainChars(u);
    ScpPlain(u);
    hide Tail, QueryText, Address, Text;
    var rest := Tail(u) + QueryText(u);
    var s := u.host + ['/'] + rest;
    forall c | c in rest
      ensures c != '@'
    {
      assert c in s;
    }
    forall i | 0 <= i < |u.host|
      ensures u.host[i] != '@'
    {
      assert Unreserved(u.host[i]);
    }
  }

  lemma ScpRewritten(u: GitUrl)
    requires WideUrl(u)
    ensures ReplaceFirst(ScpText(u), ':', '/') == Address(u) + QueryText(u)
  {
    hide Tail, QueryText, Address, Text;
    ScpPlain(u);
    var rest := Tail(u) + QueryText(u);
    forall i | 0 <= i < |u.host|
      ensures u.host[i] != ':'
    {
      assert Unreserved(u.host[i]);
    }
    ReplaceAt(u.host, ':', rest, '/');
    assert ScpText(u) == u.host + [':'] + rest;
  }

  /** The scheme that is left when a URL is pinned. */
  function FileScheme(prefix: Prefix): string {
    match prefix
    case FileSlash => "file://"
    case GitFileSlash => "file://"
    case FileColon => "file::"
    case GitFileColon => "file::"
    case _ => ""
  }

  lemma GitStripped(u: GitUrl)
    requires WideUrl(u)
    ensures Strip(UrlText(u), GIT_SCHEMES) ==
      if u.prefix.Scp? then UrlText(u) else FileScheme(u.prefix) + (Address(u) + QueryText(u))
  {
    hide WideUrl, Text, Address, Tail, QueryText, Strip, Find, TrimPrefix;
    var s := Address(u) + QueryText(u);
    NoColonOrAt(u);
    Strip3(UrlText(u), "git::", "git://", "https://");
    NoScheme(s);
    HttpsStrips(s);
    match u.prefix
    case Bare =>
    case Https =>
    case Scp =>
      ScpUrlText(u);
      NotPrefix("git::", UrlText(u), 3);
      NotPrefix("git://", UrlText(u), 3);
      NotPrefix("https://", UrlText(u), 0);
    case GitColon => Trimmed("git::", s);
    case GitColonHttps => Trimmed("git::", "https://" + s);
    case GitSlash =>
      NotPrefix("git::", "git://" + s, 4);
      Trimmed("git://", s);
    case FileSlash => FileStrips(s);
    case FileColon => FileStrips(s);
    case GitFileSlash =>
      Trimmed("git::", "file://" + s);
      FileStrips(s);
    case GitFileColon =>
      Trimmed("git::", "file::" + s);
      FileStrips(s);
  }

  // ------------------------------------------------------------------ pinning a URL of the grammar

  /** What pinning keeps of the query: everything, if it does not begin with the ref. */
  function KeptQuery(u: GitUrl): string {
    if DepthFirst(u) then QueryText(u) else ""
  }

  /** The first "?ref=" is the query's, if that begins with the ref. */
  lemma RefSplits(u: GitUrl)
    requires GoodUrl(u)
    ensures Before(Address(u) + QueryText(u), "?ref=") == Address(u) + KeptQuery(u)
  {
    hide Text, Tail, Address, Find, WideUrl, Before;
    var p := Address(u);
    PlainChars(u);
    NoChar(p, "?ref=", 0);
    match u.query
    case NoQuery =>
      assert p + QueryText(u) == p && p + "" == p;
    case RefOnly(r) => RefFirst(p, r);
    case RefDepth(r, d) =>
      RefFirst(p, r + "&" + ("depth=" + d));
      assert "ref=" + r + "&" + ("depth=" + d) == "ref=" + (r + "&" + ("depth=" + d));
    case DepthOnly(d) =>
      QuestionFree(u);
      NoRefLater(p, "depth=" + d);
    case DepthRef(d, r) =>
      QuestionFree(u);
      NoRefLater(p, "depth=" + d + "&" + ("ref=" + r));
  }

  lemma RefFirst(p: string, rest: string)
    requires !Contains(p, "?ref=")
    ensures Before(p + ("?" + ("ref=" + rest)), "?ref=") == p + ""
  {
    FindAfter(p, "?ref=", rest);
    assert p + ("?" + ("ref=" + rest)) == p + "?ref=" + rest;
    assert p + "" == p;
  }

  lemma QuestionFree(u: GitUrl)
    requires GoodUrl(u)
    ensures '?' !in Parameters(u)
  {
    var r, d := RefOf(u), DepthOf(u);
    assert forall c :: c in r ==> c != '?';
    assert forall c :: c in d ==> c != '?';
    assert '?' !in "ref=&depth=";
  }

  /** The only "?" is not followed by "ref=". */
  lemma NoRefLater(p: string, q: string)
    requires '?' !in p && '?' !in q && q != "" && q[0] != 'r'
    ensures Before(p + ("?" + q), "?ref=") == p + ("?" + q)
  {
    var s := p + ("?" + q);
    FindIsFirst(s, "?ref=");
    forall i | 0 <= i < |s|
      ensures !Occurs(s, "?ref=", i)
    {
      if i + 5 <= |s| {
        var x := s[i..i + 5];
        assert x[0] == s[i] && x[1] == s[i + 1];
        assert i < |p| ==> s[i] == p[i];
        assert i > |p| ==> s[i] == q[i - |p| - 1];
        assert s[|p| + 1] == q[0];
      }
    }
  }

  lemma BaseOf(u: GitUrl)
    requires GoodUrl(u)
    ensures GitBase(UrlText(u)) == FileScheme(u.prefix) + (Address(u) + KeptQuery(u))
  {
    hide WideUrl, Text, Address, Tail, QueryText, Strip, Find;
    var s := Address(u) + QueryText(u);
    GitStripped(u);
    RefSplits(u);
    if u.prefix.Scp? {
      ScpUrlText(u);
      ScpNoAt(u);
      ScpRewritten(u);
      NoChar(ScpText(u), "git@", 3);
    } else {
      NoColonOrAt(u);
      var f := FileScheme(u.prefix);
      assert '@' !in f + s;
      NoColon(f + s, "git@", 3);
      CutLater(f, s, Address(u) + KeptQuery(u));
    }
  }

  /** Before the "?ref=" that is cut off a scheme makes no difference. */
  lemma CutLater(f: string, s: string, kept: string)
    requires '?' !in f && Before(s, "?ref=") == kept
    ensures Before(f + s, "?ref=") == f + kept
  {
    var n := Find(s, "?ref=");
    FindIsFirst(s, "?ref=");
    FindIsFirst(f + s, "?ref=");
    forall i | 0 <= i < |f| + n
      ensures !Occurs(f + s, "?ref=", i)
    {
      if i < |f| {
        assert i + 5 <= |f + s| ==> (f + s)[i..i + 5][0] == f[i];
      } else if i + 5 <= |f + s| {
        assert (f + s)[i..i + 5] == s[i - |f|..i - |f| + 5];
        assert !Occurs(s, "?ref=", i - |f|);
      }
    }
    if n < |s| {
      assert (f + s)[|f| + n..|f| + n + 5] == s[n..n + 5];
      FindAt(f + s, "?ref=", |f| + n);
    }
    assert (f + s)[..|f| + n] == f + s[..n];
  }

  function PinnedPrefix(prefix: Prefix): Prefix {
    match prefix
    case FileSlash => GitFileSlash
    case GitFileSlash => GitFileSlash
    case FileColon => GitFileColon
    case GitFileColon => GitFileColon
    case _ => GitColon
  }

  /** The pinned URL: the prefix git:: (before a file scheme, if there was one), the same host, path
      and subdirectory, and the commit as the ref; but a query that begins with the depth is kept,
      and its last value runs on into "?ref=". */
  function Pinned(u: GitUrl, commit: string): GitUrl {
    var query := match u.query
      case DepthOnly(d) => DepthOnly(d + "?ref=" + commit)
      case DepthRef(d, r) => DepthRef(d, r + "?ref=" + commit)
      case _ => RefOnly(commit);
    u.(prefix := PinnedPrefix(u.prefix), query := query)
  }

  lemma PinOfUrl(u: GitUrl, commit: string)
    requires GoodUrl(u) && Word(commit)
    ensures GitPin(UrlText(u), commit) == Some(UrlText(Pinned(u, commit)))
    ensures WideUrl(Pinned(u, commit)) && (!DepthFirst(u) ==> GoodUrl(Pinned(u, commit)))
  {
    hide Text, Strip, Find, GitBase;
    var v := Pinned(u, commit);
    BaseOf(u);
    assert Address(v) == Address(u);
    var f, a, q := FileScheme(u.prefix), Address(u), KeptQuery(u) + "?ref=" + commit;
    assert "git::" + (f + (a + KeptQuery(u))) + "?ref=" + commit == "git::" + (f + (a + q));
    assert "" + (a + q) == a + q;
    PinnedQuery(u, commit);
  }

  lemma PinnedQuery(u: GitUrl, commit: string)
    requires GoodUrl(u) && Word(commit)
    ensures QueryText(Pinned(u, commit)) == KeptQuery(u) + "?ref=" + commit
    ensures var v := Pinned(u, commit);
      WideValue(RefOf(v)) && WideValue(DepthOf(v)) && (!DepthFirst(u) ==> Value(RefOf(v)) && Value(DepthOf(v)))
  {
    match u.query
    case DepthOnly(d) =>
      assert "?" + ("depth=" + (d + "?ref=" + commit)) == "?" + ("depth=" + d) + "?ref=" + commit;
    case DepthRef(d, r) =>
      assert "?" + ("depth=" + d + "&" + ("ref=" + (r + "?ref=" + commit))) ==
        "?" + ("depth=" + d + "&" + ("ref=" + r)) + "?ref=" + commit;
    case _ =>
      assert "?" + ("ref=" + commit) == "" + "?ref=" + commit;
  }

  // ------------------------------------------------------------------ what processUrl makes of a URL of the grammar

  /** Hosts that filePathPattern takes for the beginning of a local path. */
  predicate LooksLocal(host: string) {
    host == "" || host == "." || host == "~" || (|host| == 2 && host[0] == '.')
  }

  /** The repository: host and path, the path ending in .git unless it is local. */
  function Repository(u: GitUrl): string {
    var p := "/" + Text(u.path);
    if LooksLocal(u.host) then "file://" + u.host + p
    else "https://" + u.host + (if HasSuffix(p, ".git") then p else p + ".git")
  }

  /** A value without the subdirectory it may carry after "//". */
  function Main(value: string): string {
    if Contains(value, "//") then Before(value, "//") else value
  }

  /** The subdirectory: in the path, or else after "//" in the depth, or else in the ref. */
  function SubdirOf(u: GitUrl): string {
    if u.subdir != [] then Text(u.subdir)
    else if Contains(DepthOf(u), "//") then After(DepthOf(u), "//")
    else if Contains(RefOf(u), "//") then After(RefOf(u), "//")
    else ""
  }

  function Meaning(u: GitUrl): GitSource {
    GitSource(Repository(u), Main(RefOf(u)), SubdirOf(u), Main(DepthOf(u)))
  }

  lemma QuerySplits(u: GitUrl)
    requires WideUrl(u)
    ensures Before(Address(u) + QueryText(u), "?") == Address(u)
    ensures After(Address(u) + QueryText(u), "?") == Parameters(u)
  {
    hide Text, Tail, Address;
    var p := Address(u);
    PlainChars(u);
    NoChar(p, "?", 0);
    if u.query.NoQuery? {
      assert p + QueryText(u) == p;
    } else {
      FindAfter(p, "?", Parameters(u));
      assert p + QueryText(u) == p + "?" + Parameters(u);
    }
  }

  lemma OneParameter(k: string, v: string, key: string)
    requires '&' !in k && '=' !in k && '&' !in v
    ensures QueryGet(k + "=" + v, key) == if key == k then v else ""
  {
    hide Find;
    var q := k + "=" + v;
    NoChar(q, "&", 0);
    NoChar(k, "=", 0);
    FindAfter(k, "=", v);
    FindIsFirst(q, "=");
    assert q[|k|..|k| + 1] == "=";
    FindAt(q, "=", |k|);
  }

  lemma TwoParameters(k: string, v: string, k2: string, v2: string, key: string)
    requires '&' !in k && '=' !in k && '&' !in v && '&' !in k2 && '=' !in k2 && '&' !in v2 && k2 != ""
    ensures QueryGet(k + "=" + v + "&" + (k2 + "=" + v2), key) == if key == k then v else if key == k2 then v2 else ""
  {
    hide Find;
    var q, q2 := k + "=" + v, k2 + "=" + v2;
    NoChar(q, "&", 0);
    FindAfter(q, "&", q2);
    OneParameter(k, v, key);
    OneParameter(k2, v2, key);
    NoChar(k, "=", 0);
    FindAfter(k, "=", v);
    FindIsFirst(q, "=");
    assert q[|k|..|k| + 1] == "=";
    FindAt(q, "=", |k|);
  }

  lemma EmptyQuery(key: string)
    ensures QueryGet("", key) == ""
  {
    FindIsFirst("", "&");
    FindIsFirst("", "=");
  }

  lemma QueryOf(u: GitUrl)
    requires WideUrl(u)
    ensures QueryGet(Parameters(u), "ref") == RefOf(u) && QueryGet(Parameters(u), "depth") == DepthOf(u)
  {
    hide Find, Text, Tail, Address, QueryGet;
    var r, d := RefOf(u), DepthOf(u);
    assert forall i :: 0 <= i < |r| ==> Unreserved(r[i]) || r[i] in "/?=";
    assert forall i :: 0 <= i < |d| ==> Unreserved(d[i]) || d[i] in "/?=";
    assert "ref" + "=" == "ref=" && "depth" + "=" == "depth=";
    match u.query
    case NoQuery =>
      EmptyQuery("ref");
      EmptyQuery("depth");
    case RefOnly(_) =>
      OneParameter("ref", r, "ref");
      OneParameter("ref", r, "depth");
    case DepthOnly(_) =>
      OneParameter("depth", d, "ref");
      OneParameter("depth", d, "depth");
    case RefDepth(_, _) =>
      TwoParameters("ref", r, "depth", d, "ref");
      TwoParameters("ref", r, "depth", d, "depth");
    case DepthRef(_, _) =>
      TwoParameters("depth", d, "ref", r, "ref");
      TwoParameters("depth", d, "ref", r, "depth");
  }

  /** No two neighbouring slashes. */
  predicate Single(s: string) {
    forall i :: 0 < i < |s| ==> !(s[i - 1] == '/' && s[i] == '/')
  }

  lemma {:induction false} TextSingle(ws: seq<string>)
    requires Words(ws) && ws != []
    ensures var t := Text(ws); Single(t) && t != "" && t[0] != '/' && t[|t| - 1] != '/'
  {
    var w := ws[0];
    assert forall i :: 0 <= i < |w| ==> Unreserved(w[i]);
    if |ws| > 1 {
      TextSingle(ws[1..]);
      var t := Text(ws[1..]);
      var all := w + "/" + t;
      forall i | 0 < i < |all|
        ensures !(all[i - 1] == '/' && all[i] == '/')
      {
        if i > |w| + 1 {
          assert all[i - 1] == t[i - 2 - |w|] && all[i] == t[i - 1 - |w|];
        }
      }
    }
  }

  lemma SingleHasNone(s: string)
    requires Single(s)
    ensures !Contains(s, "//")
  {
    FindIsFirst(s, "//");
    NoneOccurs(s);
  }

  lemma NoneOccurs(s: string)
    requires Single(s)
    ensures forall i: nat :: !Occurs(s, "//", i)
  {
    forall i: nat
      ensures !Occurs(s, "//", i)
    {
      if i + 2 <= |s| {
        assert s[i..i + 2][0] == s[i + 1 - 1] && s[i..i + 2][1] == s[i + 1];
      }
    }
  }

  lemma DoubleSplits(a: string, b: string)
    requires Single(a) && a != "" && a[|a| - 1] != '/'
    ensures var s := a + "//" + b; Contains(s, "//") && Before(s, "//") == a && After(s, "//") == b
  {
    var s := a + "//" + b;
    assert s[|a|..|a| + 2] == "//";
    FindAt(s, "//", |a|);
    FindIsFirst(s, "//");
    NoneOccurs(a);
    forall i | 0 <= i < |a|
      ensures !Occurs(s, "//", i)
    {
      assert s[i..i + 2][0] == s[i];
      assert i + 2 <= |a| ==> s[i..i + 2] == a[i..i + 2] && !Occurs(a, "//", i);
    }
    assert s[..|a|] == a && s[|a| + 2..] == b;
  }

  /** The path splits at "//" exactly when the URL has a subdirectory. */
  lemma PathSplits(u: GitUrl)
    requires WideUrl(u)
    ensures var p := "/" + Tail(u);
      && (Contains(p, "//") <==> u.subdir != [])
      && (u.subdir == [] ==> p == "/" + Text(u.path))
      && (u.subdir != [] ==> Before(p, "//") == "/" + Text(u.path) && After(p, "//") == Text(u.subdir))
  {
    hide Text, Find;
    TextSingle(u.path);
    var a := "/" + Text(u.path);
    assert Single(a);
    if u.subdir == [] {
      assert "/" + Tail(u) == a;
      SingleHasNone(a);
    } else {
      DoubleSplits(a, Text(u.subdir));
      assert "/" + Tail(u) == a + "//" + Text(u.subdir);
    }
  }

  lemma HostSplits(u: GitUrl)
    requires WideUrl(u)
    ensures Before(Address(u), "/") == u.host && Address(u)[|u.host|..] == "/" + Tail(u)
  {
    hide Find, Tail;
    forall i | 0 <= i < |u.host|
      ensures u.host[i] != '/'
    {
      assert Unreserved(u.host[i]);
    }
    NoChar(u.host, "/", 0);
    FindAfter(u.host, "/", Tail(u));
  }

  lemma LocalByHost(u: GitUrl)
    requires WideUrl(u)
    ensures var s := Address(u) + QueryText(u); (FilePattern(s) || "file://" <= s) <==> LooksLocal(u.host)
  {
    hide Find, Tail, QueryText, Text, WideUrl;
    var s, h := Address(u) + QueryText(u), u.host;
    ScpPlain(u);
    NoColonOrAt(u);
    NoColon(s, "file://", 4);
    HostChars(u);
    LocalHost(h, s);
  }

  lemma HostChars(u: GitUrl)
    requires WideUrl(u)
    ensures forall i :: 0 <= i < |u.host| ==> Unreserved(u.host[i])
  {
  }

  lemma LocalHost(h: string, s: string)
    requires ':' !in s && |h| < |s| && h == s[..|h|] && s[|h|] == '/' && forall i :: 0 <= i < |h| ==> Unreserved(h[i])
    ensures FilePattern(s) <==> LooksLocal(h)
  {
    assert forall i :: 0 <= i < |h| ==> h[i] == s[i] && h[i] != '/' && h[i] != '\n';
    assert |s| >= 2 ==> s[1] in s;
    if |h| == 0 {
      assert "/" <= s;
    } else if |h| == 1 {
      assert h == [h[0]];
      assert "./" <= s <==> h[0] == '.';
      assert "~/" <= s <==> h[0] == '~';
      assert s[1] == '/';
    } else {
      assert s[0] == h[0] && s[1] == h[1] && h[0] != '/' && h[1] != '/';
      assert !("./" <= s) && !("/" <= s) && !("~/" <= s);
      assert |h| > 2 ==> s[2] == h[2];
      assert |h| == 2 ==> s[2] == '/';
    }
  }

  /** processUrl reads every URL of the grammar as its meaning, whatever the prefix. */
  lemma ProcessMeaning(u: GitUrl)
    requires WideUrl(u)
    ensures ProcessUrl(UrlText(u)) == Meaning(u)
  {
    hide WideUrl, Find, Text, Tail, Address, QueryText, Parameters, QueryGet, Strip, FilePattern, Rewritten, UrlText;
    hide LooksLocal, HasSuffix, RefOf, DepthOf;
    SourceStripped(u);
    QuerySplits(u);
    QueryOf(u);
    HostSplits(u);
    PathSplits(u);
    LocalByHost(u);
    FindIsFirst("", "//");
  }

  /** A text that has the separator is cut at the same place when more follows. */
  lemma CutSame(s: string, x: string, sep: string)
    requires sep != "" && Contains(s, sep)
    ensures Contains(s + x, sep) && Before(s + x, sep) == Before(s, sep)
  {
    var n := Find(s, sep);
    FindIsFirst(s, sep);
    FindIsFirst(s + x, sep);
    assert (s + x)[n..n + |sep|] == s[n..n + |sep|];
    FindAt(s + x, sep, n);
    forall i | 0 <= i < n
      ensures !Occurs(s + x, sep, i)
    {
      assert (s + x)[i..i + |sep|] == s[i..i + |sep|];
      assert !Occurs(s, sep, i);
    }
    assert (s + x)[..n] == s[..n];
  }

  /** Without "//" in the value there is none after the commit has been appended. */
  lemma NoneAppended(r: string, commit: string)
    requires !Contains(r, "//") && '/' !in commit
    ensures !Contains(r + "?ref=" + commit, "//")
  {
    var s := r + "?ref=" + commit;
    FindIsFirst(s, "//");
    FindIsFirst(r, "//");
    forall i | 0 <= i < |s|
      ensures !Occurs(s, "//", i)
    {
      if i + 2 <= |s| {
        assert s[i..i + 2][1] == s[i + 1];
        if i + 2 <= |r| {
          assert s[i..i + 2] == r[i..i + 2];
          assert !Occurs(r, "//", i);
        } else {
          assert s[i + 1] == ("?ref=" + commit)[i + 1 - |r|];
        }
      }
    }
  }

  /** What the ref of a pinned URL is read as. */
  lemma PinnedRef(u: GitUrl, commit: string)
    requires GoodUrl(u) && Word(commit)
    ensures var r := RefOf(u);
      Main(RefOf(Pinned(u, commit))) == commit <==>
        !DepthFirst(u) || (Contains(r, "//") && Before(r, "//") == commit)
    ensures !Contains(commit, "//")
  {
    hide Find, Before;
    forall i | 0 <= i < |commit|
      ensures commit[i] != '/'
    {
      assert Unreserved(commit[i]);
    }
    NoChar(commit, "//", 0);
    NoChar("", "//", 0);
    match u.query
    case DepthRef(d, r) =>
      if Contains(r, "//") {
        CutSame(r, "?ref=" + commit, "//");
        assert r + ("?ref=" + commit) == r + "?ref=" + commit;
      } else {
        NoneAppended(r, commit);
        assert |r + "?ref=" + commit| > |commit|;
      }
    case _ =>
  }

  /** What a pinned URL selects.  The repository is that of the URL it was made from.  It is read at
      the commit exactly when the query does not begin with the depth (or its ref happens to be the
      commit, followed by "//"): otherwise the commit becomes a part of the last value.  If it is
      read at the commit, the depth is gone, and the directory is kept exactly when it is in the
      path, or there is none in the query. */
  lemma PinRoundTrip(u: GitUrl, commit: string)
    requires GoodUrl(u) && Word(commit)
    ensures GitPin(UrlText(u), commit).Some?
    ensures var pinned, r, d := ProcessUrl(GitPin(UrlText(u), commit).value), RefOf(u), DepthOf(u);
      var was := ProcessUrl(UrlText(u));
      && pinned.src == was.src
      && (pinned.ref == commit <==> !DepthFirst(u) || (Contains(r, "//") && Before(r, "//") == commit))
      && (!DepthFirst(u) ==>
            && pinned.depth == ""
            && (pinned.subdir == was.subdir <==>
                u.subdir != [] || (if Contains(d, "//") then After(d, "//") else After(r, "//")) == ""))
  {
    hide Find, Text, UrlText, GitPin, ProcessUrl, HasSuffix;
    PinOfUrl(u, commit);
    ProcessMeaning(u);
    ProcessMeaning(Pinned(u, commit));
    PinnedRef(u, commit);
    NoChar("", "//", 0);
    FindIsFirst(RefOf(u), "//");
  }
}
