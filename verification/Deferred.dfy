/**
  The deferred pass of untar: modes and times of directories, set after everything else has been
  extracted, in whatever order the map of headers is traversed.
 */
module Deferred {
  import opened Paths
  import opened Os
  import opened Archives
  import opened ExtractFrame

  /** The directory headers by cleaned path, a later one replacing an earlier one. */
  function HeadersOf(job: Job, seen: map<string, Entry>, entries: seq<Entry>): map<string, Entry>
    decreases |entries|
  {
    if entries == [] then seen
    else
      var next := if entries[0].kind.Directory? then seen[PathOf(job, entries[0]) := entries[0]] else seen;
      HeadersOf(job, next, entries[1..])
  }

  /** The last directory header for the path k, if there is one. */
  function LastHeader(job: Job, entries: seq<Entry>, k: string): Option<Entry> {
    if entries == [] then None
    else
      var later := LastHeader(job, entries[1..], k);
      if later.Some? then later
      else if entries[0].kind.Directory? && PathOf(job, entries[0]) == k then Some(entries[0])
      else None
  }

  lemma {:induction false} HeadersAreLast(job: Job, seen: map<string, Entry>, entries: seq<Entry>, k: string)
    ensures var h := HeadersOf(job, seen, entries);
      && (k in h <==> LastHeader(job, entries, k).Some? || k in seen)
      && (k in h ==> h[k] == if LastHeader(job, entries, k).Some? then LastHeader(job, entries, k).value else seen[k])
    decreases |entries|
  {
    hide Join;
    if entries != [] {
      var next := if entries[0].kind.Directory? then seen[PathOf(job, entries[0]) := entries[0]] else seen;
      HeadersAreLast(job, next, entries[1..], k);
    }
  }

  lemma TarEntryHeaders(env: Env, job: Job, s: Tar, e: Entry)
    requires s.ok && TarEntry(env, job, s, e).ok
    ensures TarEntry(env, job, s, e).seen == if e.kind.Directory? then s.seen[PathOf(job, e) := e] else s.seen
  {
    hide Walk, PlaceOf, Join, IsPathContained, WriteEntry, TarParent;
  }

  lemma {:induction false} TarLoopHeaders(env: Env, job: Job, s: Tar, entries: seq<Entry>)
    requires s.ok && TarLoop(env, job, s, entries).ok
    ensures TarLoop(env, job, s, entries).seen == HeadersOf(job, s.seen, entries)
    decreases |entries|
  {
    hide Walk, TarEntry, Join;
    if entries != [] {
      if TarEntry(env, job, s, entries[0]).ok {
        TarEntryHeaders(env, job, s, entries[0]);
        TarLoopHeaders(env, job, TarEntry(env, job, s, entries[0]), entries[1..]);
      }
    }
  }

  // ------------------------------------------------------------------ the pass

  function LookTimes(t: map<Path, Times>, p: Path): Option<Times> {
    if p in t then Some(t[p]) else None
  }

  /** No key of the list leads to p. */
  ghost predicate Elsewhere(env: Env, keys: seq<string>, p: Path) {
    forall i :: 0 <= i < |keys| ==> At(env, keys[i]) != p
  }

  /** w2 is w with the mode and times of the headers of the given keys at their places. */
  ghost predicate Dressed(env: Env, job: Job, w: World, w2: World, seen: map<string, Entry>, keys: seq<string>) {
    && (forall i :: 0 <= i < |keys| && keys[i] in seen ==>
          && Get(w2.nodes, At(env, keys[i])) == Some(Dir(seen[keys[i]].mode))
          && LookTimes(w2.times, At(env, keys[i])) == Some(TimesOf(job, seen[keys[i]])))
    && (forall p {:trigger Get(w2.nodes, p)} :: Elsewhere(env, keys, p) ==> Get(w2.nodes, p) == Get(w.nodes, p))
    && (forall p {:trigger LookTimes(w2.times, p)} :: Elsewhere(env, keys, p) ==>
          LookTimes(w2.times, p) == LookTimes(w.times, p))
  }

  /** Different keys lead to different directories. */
  lemma KeysApart(env: Env, job: Job, m: Tree, seen: map<string, Entry>, k1: string, k2: string)
    requires GoodJob(env, job) && SeenDirs(env, job, m, seen) && k1 in seen && k2 in seen && k1 != k2
    ensures At(env, k1) != At(env, k2)
  {
    hide PlaceOf, Join, IsPathContained;
    if At(env, k1) == At(env, k2) {
      PlaceInjective(env, job, seen[k1], seen[k2]);
    }
  }

  lemma HeadApart(env: Env, job: Job, m: Tree, seen: map<string, Entry>, keys: seq<string>)
    requires GoodJob(env, job) && SeenDirs(env, job, m, seen)
    requires NoRepeats(keys) && keys != [] && forall k :: k in keys ==> k in seen
    ensures Elsewhere(env, keys[1..], At(env, keys[0]))
  {
    hide PlaceOf, Join, IsPathContained;
    forall i | 0 <= i < |keys[1..]|
      ensures At(env, keys[1..][i]) != At(env, keys[0])
    {
      assert keys[1..][i] == keys[i + 1];
      assert keys[i + 1] in keys && keys[0] in keys;
      KeysApart(env, job, m, seen, keys[i + 1], keys[0]);
    }
  }

  lemma {:induction false} TarDirsDress(env: Env, job: Job, w: World, seen: map<string, Entry>, keys: seq<string>)
    requires Sound(env, job, w.nodes) && SeenDirs(env, job, w.nodes, seen)
    requires NoRepeats(keys) && (forall k :: k in keys ==> k in seen)
    requires TarDirs(env, job, w, seen, keys).ok
    ensures Dressed(env, job, w, TarDirs(env, job, w, seen, keys).w, seen, keys)
    decreases |keys|
  {
    hide Walk, PlaceOf, Join, IsPathContained, Chmod, Chtimes;
    if keys != [] {
      var d, k := At(env, job.dst), keys[0];
      assert k in keys && forall x :: x in keys[1..] ==> x in keys;
      var e, p := seen[k], At(env, k);
      ClearBelow(w.nodes, d, p);
      ChmodEffect(env, w, p, e.mode);
      var c := Chmod(env, w, p, e.mode);
      ChmodFrame(w.nodes, d, p, e.mode);
      SeenKept(env, job, w.nodes, c.w.nodes, seen);
      ClearBelow(c.w.nodes, d, p);
      ChtimesEffect(env, c.w, p, TimesOf(job, e));
      var t := Chtimes(env, c.w, p, TimesOf(job, e));
      ChmodTimes(env, w, p, e.mode);
      TarDirsDress(env, job, t.w, seen, keys[1..]);
      HeadApart(env, job, w.nodes, seen, keys);
      DressOn(env, job, w, t.w, TarDirs(env, job, t.w, seen, keys[1..]).w, seen, keys);
    }
  }

  lemma ChmodTimes(env: Env, w: World, p: Path, mode: nat)
    ensures Chmod(env, w, p, mode).w.times == w.times
    ensures Chmod(env, w, p, mode).w.tick == w.tick + 1
  {
    hide Walk;
  }

  lemma DressOn(env: Env, job: Job, w: World, w1: World, w2: World, seen: map<string, Entry>, keys: seq<string>)
    requires keys != [] && keys[0] in seen && Elsewhere(env, keys[1..], At(env, keys[0]))
    requires var e, p := seen[keys[0]], At(env, keys[0]);
      w1.nodes == w.nodes[p := Dir(e.mode)] && w1.times == w.times[p := TimesOf(job, e)]
    requires Dressed(env, job, w1, w2, seen, keys[1..])
    ensures Dressed(env, job, w, w2, seen, keys)
  {
    hide PlaceOf;
    var p0 := At(env, keys[0]);
    assert Get(w2.nodes, p0) == Get(w1.nodes, p0);
    assert LookTimes(w2.times, p0) == LookTimes(w1.times, p0);
    forall i | 0 <= i < |keys| && keys[i] in seen
      ensures Get(w2.nodes, At(env, keys[i])) == Some(Dir(seen[keys[i]].mode))
      ensures LookTimes(w2.times, At(env, keys[i])) == Some(TimesOf(job, seen[keys[i]]))
    {
      if i > 0 {
        assert keys[i] == keys[1..][i - 1];
      }
    }
    forall p | Elsewhere(env, keys, p)
      ensures Get(w2.nodes, p) == Get(w.nodes, p)
      ensures LookTimes(w2.times, p) == LookTimes(w.times, p)
    {
      assert Elsewhere(env, keys[1..], p) by {
        forall i | 0 <= i < |keys[1..]|
          ensures At(env, keys[1..][i]) != p
        {
          assert keys[1..][i] == keys[i + 1];
        }
      }
      assert p != p0;
      assert Get(w2.nodes, p) == Get(w1.nodes, p);
      assert LookTimes(w2.times, p) == LookTimes(w1.times, p);
    }
  }

  // ------------------------------------------------------------------ the results

  /** After a successful untar every directory with a header has the mode and the times of its
      last header, although creating children changed them earlier; the time of the call stands
      for a time the header does not have. */
  lemma DirectoriesAreFinal(env: Env, job: Job, w: World, archive: Archive, k: string)
    requires Sound(env, job, w.nodes) && FairListing(env)
    requires Untar(env, job, w, archive).ok && LastHeader(job, archive.entries, k).Some?
    ensures var e, r := LastHeader(job, archive.entries, k).value, Untar(env, job, w, archive).w;
      && Get(r.nodes, At(env, k)) == Some(Dir(e.mode))
      && At(env, k) in r.times
      && r.times[At(env, k)].modified == (if e.modified.Some? then e.modified.value else job.now)
      && r.times[At(env, k)].access == (if e.access.Some? then e.access.value else job.now)
  {
    hide Walk, PlaceOf, Join, IsPathContained, TarDirs, TarEntry;
    var s := TarLoop(env, job, StartTar(w), archive.entries);
    TarLoopFrame(env, job, StartTar(w), archive.entries);
    TarLoopSeen(env, job, StartTar(w), archive.entries);
    TarLoopHeaders(env, job, StartTar(w), archive.entries);
    HeadersAreLast(job, map[], archive.entries, k);
    var keys := env.order(s.seen.Keys);
    assert Lists(keys, s.seen.Keys);
    TarDirsDress(env, job, s.w, s.seen, keys);
    assert k in keys;
    var i :| 0 <= i < |keys| && keys[i] == k;
    assert keys[i] in s.seen;
    var e := LastHeader(job, archive.entries, k).value;
    assert LookTimes(Untar(env, job, w, archive).w.times, At(env, k)) == Some(TimesOf(job, e));
  }

  /** The pass fails exactly when one of its calls does. */
  lemma {:induction false} TarDirsOk(env: Env, job: Job, w: World, seen: map<string, Entry>, keys: seq<string>)
    requires Sound(env, job, w.nodes) && SeenDirs(env, job, w.nodes, seen)
    requires forall k :: k in keys ==> k in seen
    ensures TarDirs(env, job, w, seen, keys).ok <==> forall t :: w.tick <= t < w.tick + 2 * |keys| ==> !env.fault(t)
    decreases |keys|
  {
    hide Walk, PlaceOf, Join, IsPathContained, Chmod, Chtimes;
    if keys != [] {
      var d, k := At(env, job.dst), keys[0];
      assert k in keys && forall x :: x in keys[1..] ==> x in keys;
      var e, p := seen[k], At(env, k);
      ClearBelow(w.nodes, d, p);
      ChmodEffect(env, w, p, e.mode);
      var c := Chmod(env, w, p, e.mode);
      ChmodTimes(env, w, p, e.mode);
      if c.ok {
        ChmodFrame(w.nodes, d, p, e.mode);
        SeenKept(env, job, w.nodes, c.w.nodes, seen);
        ClearBelow(c.w.nodes, d, p);
        ChtimesEffect(env, c.w, p, TimesOf(job, e));
        var t := Chtimes(env, c.w, p, TimesOf(job, e));
        ChtimesTick(env, c.w, p, TimesOf(job, e));
        if t.ok {
          TarDirsOk(env, job, t.w, seen, keys[1..]);
        }
      }
    }
  }

  lemma ChtimesTick(env: Env, w: World, p: Path, times: Times)
    ensures Chtimes(env, w, p, times).w.tick == w.tick + 1
  {
    hide Walk;
  }

  /** The order in which the map of headers is traversed makes no difference: the pass succeeds or
      fails alike, and leaves the same modes, times and nodes when it succeeds. */
  lemma PassIsOrderFree(env: Env, job: Job, w: World, seen: map<string, Entry>, keys1: seq<string>, keys2: seq<string>)
    requires Sound(env, job, w.nodes) && SeenDirs(env, job, w.nodes, seen)
    requires Lists(keys1, seen.Keys) && Lists(keys2, seen.Keys)
    ensures var r1, r2 := TarDirs(env, job, w, seen, keys1), TarDirs(env, job, w, seen, keys2);
      r1.ok == r2.ok && (r1.ok ==> r1.w.nodes == r2.w.nodes && r1.w.times == r2.w.times)
  {
    hide Walk, PlaceOf, Join, IsPathContained, TarDirs;
    SameLength(keys1, keys2, seen.Keys);
    TarDirsOk(env, job, w, seen, keys1);
    TarDirsOk(env, job, w, seen, keys2);
    if TarDirs(env, job, w, seen, keys1).ok {
      TarDirsDress(env, job, w, seen, keys1);
      TarDirsDress(env, job, w, seen, keys2);
      DressedAlike(env, job, w,
        TarDirs(env, job, w, seen, keys1).w, TarDirs(env, job, w, seen, keys2).w, seen, keys1, keys2);
    }
  }

  lemma SameLength(xs: seq<string>, ys: seq<string>, s: set<string>)
    requires Lists(xs, s) && Lists(ys, s)
    ensures |xs| == |ys|
  {
    ListLength(xs, s);
    ListLength(ys, s);
  }

  lemma DressedAlike(env: Env, job: Job, w: World, w1: World, w2: World, seen: map<string, Entry>, keys1: seq<string>,
                     keys2: seq<string>)
    requires Dressed(env, job, w, w1, seen, keys1) && Dressed(env, job, w, w2, seen, keys2)
    requires Lists(keys1, seen.Keys) && Lists(keys2, seen.Keys)
    ensures w1.nodes == w2.nodes && w1.times == w2.times
  {
    hide PlaceOf;
    forall p
      ensures Get(w1.nodes, p) == Get(w2.nodes, p)
      ensures LookTimes(w1.times, p) == LookTimes(w2.times, p)
    {
      SameAt(env, job, w, w1, w2, seen, keys1, keys2, p);
    }
    assert w1.nodes.Keys == w2.nodes.Keys by {
      forall p
        ensures p in w1.nodes <==> p in w2.nodes
      {
        assert Get(w1.nodes, p) == Get(w2.nodes, p);
      }
    }
    forall p | p in w1.nodes
      ensures w1.nodes[p] == w2.nodes[p]
    {
      assert Get(w1.nodes, p) == Get(w2.nodes, p);
    }
    assert w1.times.Keys == w2.times.Keys by {
      forall p
        ensures p in w1.times <==> p in w2.times
      {
        assert LookTimes(w1.times, p) == LookTimes(w2.times, p);
      }
    }
    forall p | p in w1.times
      ensures w1.times[p] == w2.times[p]
    {
      assert LookTimes(w1.times, p) == LookTimes(w2.times, p);
    }
  }

  lemma SameAt(env: Env, job: Job, w: World, w1: World, w2: World, seen: map<string, Entry>, keys1: seq<string>,
               keys2: seq<string>, p: Path)
    requires Dressed(env, job, w, w1, seen, keys1) && Dressed(env, job, w, w2, seen, keys2)
    requires Lists(keys1, seen.Keys) && Lists(keys2, seen.Keys)
    ensures Get(w1.nodes, p) == Get(w2.nodes, p)
    ensures LookTimes(w1.times, p) == LookTimes(w2.times, p)
  {
    hide PlaceOf;
    if Elsewhere(env, keys1, p) {
      forall j | 0 <= j < |keys2|
        ensures At(env, keys2[j]) != p
      {
        assert keys2[j] in seen.Keys && keys2[j] in keys1;
        var i :| 0 <= i < |keys1| && keys1[i] == keys2[j];
      }
    } else {
      var i :| 0 <= i < |keys1| && At(env, keys1[i]) == p;
      assert keys1[i] in seen.Keys && keys1[i] in keys2;
      var j :| 0 <= j < |keys2| && keys2[j] == keys1[i];
    }
  }
}
