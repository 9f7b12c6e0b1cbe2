/**
  Pinned URLs: GetPinnedURL of the git, OCI, HTTP and file gatherers, the parsers of git and OCI
  URLs, and what pinning keeps.
 */
module Pins {
  import opened Os
  import opened Strings

  /** The loop that every GetPinnedURL begins with. */
  method StripSchemes(u: string, schemes: seq<string>) returns (r: string)
    ensures r == Strip(u, schemes)
  {
    r := u;
    var i := 0;
    assert schemes[0..] == schemes;
    while i < |schemes|
      invariant 0 <= i <= |schemes|
      invariant Strip(r, schemes[i..]) == Strip(u, schemes)
    {
      assert schemes[i..][1..] == schemes[i + 1..];
      r := TrimPrefix(r, schemes[i]);
      i := i + 1;
    }
  }

  lemma NotPrefix(p: string, s: string, i: nat)
    requires i < |p| && i < |s| && p[i] != s[i]
    ensures !(p <= s) && TrimPrefix(s, p) == s
  {
  }

  lemma Trimmed(p: string, s: string)
    ensures TrimPrefix(p + s, p) == s
  {
    assert (p + s)[..|p|] == p;
  }

  lemma Strip3(s: string, a: string, b: string, c: string)
    ensures Strip(s, [a, b, c]) == TrimPrefix(TrimPrefix(TrimPrefix(s, a), b), c)
  {
    var s1 := TrimPrefix(s, a);
    assert [a, b, c][1..] == [b, c];
    assert Strip(s, [a, b, c]) == Strip(s1, [b, c]);
    Strip2(s1, b, c);
  }

  lemma Strip2(s: string, a: string, b: string)
    ensures Strip(s, [a, b]) == TrimPrefix(TrimPrefix(s, a), b)
  {
    var s1 := TrimPrefix(s, a);
    assert [a, b][1..] == [b];
    assert Strip(s, [a, b]) == Strip(s1, [b]);
    var s2 := TrimPrefix(s1, b);
    assert [b][1..] == [];
    assert Strip(s1, [b]) == Strip(s2, []);
  }

  // ------------------------------------------------------------------ HTTP

  const HTTP_SCHEMES := ["http://", "https://", "http::"]

  function HttpPin(u: string): Option<string> {
    if u == "" then None else Some("http::" + Strip(u, HTTP_SCHEMES))
  }

  method PinHttp(u: string) returns (r: Option<string>)
    ensures r == HttpPin(u)
    ensures r.None? <==> u == ""
    ensures r.Some? ==> HttpPin(r.value) == r
  {
    if |u| == 0 {
      return None;
    }
    var s := StripSchemes(u, HTTP_SCHEMES);
    r := Some("http::" + s);
    HttpRepin(u);
  }

  /** Whichever scheme an address is written with, its pinned URL is the address after "http::". */
  lemma HttpPinned(s: string)
    requires s != "" && !("http://" <= s) && !("https://" <= s) && !("http::" <= s)
    ensures forall u :: u in [s, "http://" + s, "https://" + s, "http::" + s] ==> HttpPin(u) == Some("http::" + s)
  {
    hide Strip, TrimPrefix;
    forall u | u in [s, "http://" + s, "https://" + s, "http::" + s]
      ensures HttpPin(u) == Some("http::" + s)
    {
      Strip3(u, "http://", "https://", "http::");
      NoPrefix("http://", s);
      NoPrefix("https://", s);
      NoPrefix("http::", s);
      Trimmed("http://", s);
      Trimmed("https://", s);
      Trimmed("http::", s);
      NotPrefix("http://", "https://" + s, 4);
      NotPrefix("http://", "http::" + s, 5);
      NotPrefix("https://", "http::" + s, 4);
    }
  }

  lemma NoPrefix(p: string, s: string)
    requires !(p <= s)
    ensures TrimPrefix(s, p) == s
  {
  }

  /** Pinning a pinned HTTP URL changes nothing. */
  lemma HttpRepin(u: string)
    requires u != ""
    ensures HttpPin(HttpPin(u).value) == HttpPin(u)
  {
    var s := Strip(u, HTTP_SCHEMES);
    var p := "http::" + s;
    Strip3(p, "http://", "https://", "http::");
    NotPrefix("http://", p, 5);
    NotPrefix("https://", p, 4);
    Trimmed("http::", s);
  }

  // ------------------------------------------------------------------ file

  const FILE_SCHEMES := ["file::", "file://"]

  function FilePin(u: string): Option<string> {
    if u == "" then None else Some("file::" + Strip(u, FILE_SCHEMES))
  }

  method PinFile(u: string) returns (r: Option<string>)
    ensures r == FilePin(u)
    ensures r.None? <==> u == ""
  {
    if |u| == 0 {
      return None;
    }
    var s := StripSchemes(u, FILE_SCHEMES);
    r := Some("file::" + s);
  }

  /** The pinned URL of a path, with or without a scheme, is the path after "file::". */
  lemma FilePinned(s: string)
    requires s != "" && !("file::" <= s) && !("file://" <= s)
    ensures forall u :: u in [s, "file::" + s, "file://" + s] ==> FilePin(u) == Some("file::" + s)
  {
    hide Strip, TrimPrefix;
    forall u | u in [s, "file::" + s, "file://" + s]
      ensures FilePin(u) == Some("file::" + s)
    {
      Strip2(u, "file::", "file://");
      NoPrefix("file::", s);
      NoPrefix("file://", s);
      Trimmed("file::", s);
      Trimmed("file://", s);
      NotPrefix("file::", "file://" + s, 5);
    }
  }

  /** Pinning a pinned file URL changes nothing exactly when the stripped path does not begin
      with "file://" itself. */
  lemma FileRepinIff(u: string)
    requires u != ""
    ensures FilePin(FilePin(u).value) == FilePin(u) <==> !("file://" <= Strip(u, FILE_SCHEMES))
  {
    var s := Strip(u, FILE_SCHEMES);
    Strip2("file::" + s, "file::", "file://");
    Trimmed("file::", s);
    if "file://" <= s {
      assert |"file::" + s| != |"file::" + TrimPrefix(s, "file://")|;
    }
  }

  // ------------------------------------------------------------------ OCI

  const OCI_SCHEMES := ["oci::", "oci://", "https://"]

  function OciPin(u: string, digest: string): Option<string> {
    if u == "" || digest == "" then None
    else Some("oci::" + Before(Strip(u, OCI_SCHEMES), "@") + "@" + digest)
  }

  method PinOci(u: string, digest: string) returns (r: Option<string>)
    ensures r == OciPin(u, digest)
    ensures r.None? <==> u == "" || digest == ""
  {
    if |u| == 0 || digest == "" {
      return None;
    }
    var s := StripSchemes(u, OCI_SCHEMES);
    s := Before(s, "@");
    r := Some("oci::" + s + "@" + digest);
  }

  /** ociURLParse. */
  function OciParse(source: string): string {
    var s := if Contains(source, "::") then Before(After(source, "::"), "::") else source;
    if Contains(s, "://") then After(s, "://") else s
  }

  method ParseOci(source: string) returns (src: string)
    ensures src == OciParse(source)
  {
    var s := source;
    if Contains(s, "::") {
      s := Before(After(s, "::"), "::");
    }
    src := s;
    if Contains(s, "://") {
      src := After(s, "://");
    }
  }

  /** Pinning a pinned OCI URL changes nothing exactly when the stripped reference does not begin
      with a scheme itself. */
  lemma OciRepinIff(u: string, digest: string)
    requires u != "" && digest != ""
    ensures var b := Before(Strip(u, OCI_SCHEMES), "@");
      OciPin(OciPin(u, digest).value, digest) == OciPin(u, digest) <==> !("oci://" <= b) && !("https://" <= b)
  {
    var b := Before(Strip(u, OCI_SCHEMES), "@");
    BeforeHasNone(Strip(u, OCI_SCHEMES), "@");
    OciAgain(b, digest);
    if "oci://" <= b || "https://" <= b {
      var b2 := TrimPrefix(TrimPrefix(b, "oci://"), "https://");
      assert |b2| < |b|;
      assert |"oci::" + b2 + "@" + digest| != |"oci::" + b + "@" + digest|;
    }
  }

  lemma OciAgain(b: string, digest: string)
    requires !Contains(b, "@") && digest != ""
    ensures var b2 := TrimPrefix(TrimPrefix(b, "oci://"), "https://");
      OciPin("oci::" + b + "@" + digest, digest) == Some("oci::" + b2 + "@" + digest)
  {
    var t := b + "@" + digest;
    var p := "oci::" + b + "@" + digest;
    assert p == "oci::" + t;
    Strip3(p, "oci::", "oci://", "https://");
    Trimmed("oci::", t);
    var b1 := TrimPrefix(b, "oci://");
    TrimInside("oci://", b, '@', digest);
    var b2 := TrimPrefix(b1, "https://");
    TrimInside("https://", b1, '@', digest);
    SuffixHasNone(b, b1, "@");
    SuffixHasNone(b1, b2, "@");
    FindAfter(b2, "@", digest);
  }

  /** A prefix that cannot reach past the separator is removed before it. */
  lemma TrimInside(p: string, a: string, c: char, b: string)
    requires c !in p
    ensures TrimPrefix(a + [c] + b, p) == TrimPrefix(a, p) + [c] + b
  {
    PrefixInside(p, a, c, b);
    if p <= a {
      assert (a + [c] + b)[|p|..] == a[|p|..] + [c] + b;
    }
  }

  lemma SuffixHasNone(s: string, t: string, sep: string)
    requires sep != "" && !Contains(s, sep)
    requires |t| <= |s| && t == s[|s| - |t|..]
    ensures !Contains(t, sep)
  {
    FindIsFirst(s, sep);
    FindIsFirst(t, sep);
    var k := |s| - |t|;
    forall i | 0 <= i < |t|
      ensures !Occurs(t, sep, i)
    {
      if i + |sep| <= |t| {
        assert t[i..i + |sep|] == s[i + k..i + k + |sep|];
        assert !Occurs(s, sep, i + k);
      }
    }
  }

  /** The ways to write a reference: bare, or with the schemes that the gatherer accepts. */
  function Spellings(r: string): seq<string> {
    [r, "oci::" + r, "oci://" + r, "https://" + r, "oci::oci://" + r]
  }

  /** A reference that contains no scheme itself. */
  predicate Bare(r: string) {
    !Contains(r, "::") && !Contains(r, "://")
  }

  /** However a reference is written, it parses to the reference. */
  lemma OciParsed(r: string)
    requires Bare(r)
    ensures forall u :: u in Spellings(r) ==> OciParse(u) == r
  {
    hide Find, Contains, Before, After;
    CutAt("oci", r);
    CutAt("https", r);
    var o, h := "oci://" + r, "https://" + r;
    assert "oci" + "://" == "oci://" && "https" + "://" == "https://";
    assert o == "oci" + "://" + r && h == "https" + "://" + r;
    FirstIs("oci", r);
    FirstIs("oci", o);
    WholeBefore(r);
    WholeBefore(o);
    assert "oci" + "::" + r == "oci::" + r;
    assert "oci" + "::" + o == "oci::oci://" + r;
  }

  /** What follows a second "::" is dropped. */
  lemma OciDropsRest(r: string, x: string)
    requires Bare(r) && (r != "" ==> r[|r| - 1] != ':')
    ensures OciParse("oci::" + r + "::" + x) == r
  {
    hide Find, After;
    var t := r + "::" + x;
    FirstIs("oci", t);
    assert "oci" + "::" + t == "oci::" + r + "::" + x;
    FindIsFirst(t, "::");
    FindIsFirst(r, "::");
    assert t[|r|..|r| + 2] == "::";
    FindAt(t, "::", |r|);
    forall i | 0 <= i < |r|
      ensures !Occurs(t, "::", i)
    {
      if i + 2 <= |r| {
        assert t[i..i + 2] == r[i..i + 2];
        assert !Occurs(r, "::", i);
      } else {
        assert t[i..i + 2][0] == r[|r| - 1];
      }
    }
    assert t[..|r|] == r;
  }

  lemma WholeBefore(s: string)
    requires !Contains(s, "::")
    ensures Before(s, "::") == s
  {
    FindIsFirst(s, "::");
  }

  /** A scheme before "://" is cut off, and is no scheme before "::". */
  lemma CutAt(a: string, r: string)
    requires ':' !in a && Bare(r)
    ensures var s := a + "://" + r; Contains(s, "://") && After(s, "://") == r && !Contains(s, "::")
  {
    var s := a + "://" + r;
    NoChar(a, "://", 0);
    FindAfter(a, "://", r);
    FindIsFirst(s, "::");
    FindIsFirst(r, "::");
    forall i | 0 <= i < |s|
      ensures !Occurs(s, "::", i)
    {
      if i + 2 <= |s| {
        var two := s[i..i + 2];
        assert two[0] == s[i] && two[1] == s[i + 1];
        if i == |a| {
          assert s[i + 1] == '/';
        } else if i > |a| + 2 {
          var j := i - |a| - 3;
          assert two == r[j..j + 2];
          assert !Occurs(r, "::", j);
        }
      }
    }
  }

  /** However a reference is written, its pinned URL has the reference up to its own digest, and the
      pinned one. */
  lemma OciPinned(r: string, u: string, digest: string)
    requires Bare(r) && u in Spellings(r) && u != "" && digest != ""
    ensures OciPin(u, digest) == Some("oci::" + Before(r, "@") + "@" + digest)
  {
    hide Strip, TrimPrefix, Contains, Before;
    Strip3(u, "oci::", "oci://", "https://");
    NoneNoPrefix(r, "oci", "::");
    NoneNoPrefix(r, "oci", "://");
    NoneNoPrefix(r, "https", "://");
    assert "oci" + "::" == "oci::" && "oci" + "://" == "oci://" && "https" + "://" == "https://";
    var o, h := "oci://" + r, "https://" + r;
    Trimmed("oci::", r);
    Trimmed("oci::", o);
    Trimmed("oci://", r);
    Trimmed("https://", r);
    NotPrefix("oci::", o, 4);
    NotPrefix("oci::", h, 0);
    NotPrefix("oci://", h, 0);
    assert "oci::" + o == "oci::oci://" + r;
  }

  /** For a reference without "::" and "://", written in any of these ways, the pinned URL parses
      to the reference without its own digest, followed by the pinned one. */
  lemma OciRoundTrip(r: string, u: string, digest: string)
    requires Bare(r) && u in Spellings(r) && u != "" && digest != "" && Bare(digest)
    ensures OciParse(OciPin(u, digest).value) == Before(r, "@") + "@" + digest
  {
    hide OciParse, OciPin, Find, Contains;
    OciPinned(r, u, digest);
    var b := Before(r, "@");
    var t := b + "@" + digest;
    NoneJoined(r, b, digest, "::");
    NoneJoined(r, b, digest, "://");
    OciParsed(t);
    assert "oci::" + b + "@" + digest == "oci::" + t;
    assert "oci::" + t in Spellings(t);
  }

  /** "::" is found where it is first, also when another colon follows. */
  lemma FirstIs(a: string, t: string)
    requires ':' !in a
    ensures Find(a + "::" + t, "::") == |a| && Contains(a + "::" + t, "::") && After(a + "::" + t, "::") == t
  {
    var s := a + "::" + t;
    FindIsFirst(s, "::");
    assert s[|a|..|a| + 2] == "::";
    FindAt(s, "::", |a|);
    var n := Find(s, "::");
    assert s[n..n + 2][0] == s[n];
    assert s[|a| + 2..] == t;
  }

  lemma NoneNoPrefix(u: string, a: string, sep: string)
    requires sep != "" && !Contains(u, sep)
    ensures !(a + sep <= u) && TrimPrefix(u, a + sep) == u
  {
    FindIsFirst(u, sep);
    assert !Occurs(u, sep, |a|);
    if |a| + |sep| <= |u| {
      assert (a + sep)[|a|..] == sep;
      assert u[..|a + sep|][|a|..] == u[|a|..|a| + |sep|];
    }
  }

  lemma NoneJoined(u: string, b: string, digest: string, sep: string)
    requires b == Before(u, "@") && |sep| > 0 && '@' !in sep
    requires !Contains(u, sep) && !Contains(digest, sep)
    ensures !Contains(b + "@" + digest, sep)
  {
    var t := b + "@" + digest;
    FindIsFirst(u, sep);
    FindIsFirst(digest, sep);
    FindIsFirst(t, sep);
    forall i | 0 <= i < |t|
      ensures !Occurs(t, sep, i)
    {
      if i + |sep| <= |b| {
        assert t[i..i + |sep|] == u[i..i + |sep|];
        assert !Occurs(u, sep, i);
      } else if i > |b| {
        var j := i - |b| - 1;
        if i + |sep| <= |t| {
          assert t[i..i + |sep|] == digest[j..j + |sep|];
          assert !Occurs(digest, sep, j);
        }
      } else if i + |sep| <= |t| {
        assert t[i..i + |sep|][|b| - i] == t[|b|] == '@';
      }
    }
  }
}
