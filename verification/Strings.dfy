/**
  The text functions of Go's strings package that the gatherers use, and what is needed about
  them.
 */
module Strings {

  function TrimPrefix(s: string, prefix: string): string {
    if prefix <= s then s[|prefix|..] else s
  }

  /** Prefixes tried one after the other, each removed at most once. */
  function Strip(s: string, prefixes: seq<string>): string
    decreases prefixes
  {
    if prefixes == [] then s else Strip(TrimPrefix(s, prefixes[0]), prefixes[1..])
  }

  /** The position of the first occurrence of sep in s, or |s|. */
  function Find(s: string, sep: string): (n: nat)
    requires sep != ""
    ensures n <= |s|
  {
    if |s| < |sep| then |s| else if sep <= s then 0 else 1 + Find(s[1..], sep)
  }

  predicate Contains(s: string, sep: string)
    requires sep != ""
  {
    Find(s, sep) < |s|
  }

  /** The first part of strings.SplitN(s, sep, 2), and the second. */
  function Before(s: string, sep: string): string
    requires sep != ""
  {
    s[..Find(s, sep)]
  }

  function After(s: string, sep: string): string
    requires sep != ""
  {
    if Find(s, sep) + |sep| <= |s| then s[Find(s, sep) + |sep|..] else ""
  }

  /** strings.Replace(s, ":", "/", 1) for one-character texts. */
  function ReplaceFirst(s: string, c: char, d: char): (r: string)
    ensures |r| == |s|
  {
    if s == "" then "" else if s[0] == c then [d] + s[1..] else [s[0]] + ReplaceFirst(s[1..], c, d)
  }

  predicate Occurs(s: string, sep: string, i: nat) {
    i + |sep| <= |s| && s[i..i + |sep|] == sep
  }

  /** Find finds the first occurrence. */
  lemma {:induction false} FindIsFirst(s: string, sep: string)
    requires sep != ""
    ensures var n := Find(s, sep);
      && (n < |s| ==> Occurs(s, sep, n))
      && (forall i :: 0 <= i < n ==> !Occurs(s, sep, i))
  {
    if |s| < |sep| {
    } else if sep <= s {
      assert s[0..|sep|] == sep;
    } else {
      FindIsFirst(s[1..], sep);
      var n := Find(s[1..], sep);
      if n < |s[1..]| {
        assert s[1..][n..n + |sep|] == s[n + 1..n + 1 + |sep|];
      }
      forall i | 0 <= i < 1 + n
        ensures !Occurs(s, sep, i)
      {
        if i == 0 {
          assert Occurs(s, sep, 0) ==> sep <= s;
        } else {
          assert i + |sep| <= |s| ==> s[i..i + |sep|] == s[1..][i - 1..i - 1 + |sep|];
          assert !Occurs(s[1..], sep, i - 1);
        }
      }
    }
  }

  lemma FindAt(s: string, sep: string, i: nat)
    requires sep != "" && Occurs(s, sep, i)
    ensures Find(s, sep) <= i
  {
    FindIsFirst(s, sep);
  }

  /** If no occurrence starts in a, the first one in a + sep + b is right after a, provided the
      first character of sep occurs nowhere else in it. */
  lemma FindAfter(a: string, sep: string, b: string)
    requires sep != "" && !Contains(a, sep) && sep[0] !in sep[1..]
    ensures Find(a + sep + b, sep) == |a|
    ensures Before(a + sep + b, sep) == a && After(a + sep + b, sep) == b
  {
    var s := a + sep + b;
    assert s[|a|..|a| + |sep|] == sep;
    FindAt(s, sep, |a|);
    FindIsFirst(s, sep);
    FindIsFirst(a, sep);
    forall i | 0 <= i < |a|
      ensures !Occurs(s, sep, i)
    {
      if i + |sep| <= |a| {
        assert a[i..i + |sep|] == s[i..i + |sep|];
        assert !Occurs(a, sep, i);
      } else {
        var j := |a| - i;
        assert s[i..i + |sep|][j] == s[|a|] == sep[0];
        assert sep[j] == sep[1..][j - 1];
      }
    }
    assert s[..|a|] == a;
    assert s[|a| + |sep|..] == b;
  }

  lemma BeforeHasNone(s: string, sep: string)
    requires sep != ""
    ensures !Contains(Before(s, sep), sep)
  {
    FindIsFirst(s, sep);
    var b := Before(s, sep);
    FindIsFirst(b, sep);
    forall i | 0 <= i < |b|
      ensures !Occurs(b, sep, i)
    {
      if i + |sep| <= |b| {
        assert b[i..i + |sep|] == s[i..i + |sep|];
        assert !Occurs(s, sep, i);
      }
    }
  }

  /** Without the character there is no occurrence of a text that has it. */
  lemma NoChar(s: string, sep: string, i: nat)
    requires sep != "" && i < |sep| && sep[i] !in s
    ensures !Contains(s, sep) && Before(s, sep) == s
  {
    FindIsFirst(s, sep);
    forall k | 0 <= k < |s|
      ensures !Occurs(s, sep, k)
    {
      if k + |sep| <= |s| {
        assert s[k..k + |sep|][i] == s[k + i];
      }
    }
  }

  /** A prefix that lacks the first character of what follows is a prefix of what comes before. */
  lemma PrefixInside(p: string, a: string, c: char, b: string)
    requires c !in p
    ensures p <= a + [c] + b <==> p <= a
  {
    var s := a + [c] + b;
    assert s[|a|] == c;
    if p <= s {
      assert |p| <= |a|;
      assert p == s[..|p|] == a[..|p|];
    }
    if p <= a {
      assert s[..|p|] == a[..|p|];
    }
  }
}
