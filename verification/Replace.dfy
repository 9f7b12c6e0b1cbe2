/**
  Atomic replacement of one file: the HTTP download of gather/http/http.go and the bzip2 expander
  of expand/bzip2/bzip2.go.  A temporary file is filled, validated and renamed.  The statements
  are about every world the host went through, so about a stop after any call.
 */
module Replace {
  import opened Paths
  import opened Os
  import opened RawPaths
  import opened Hosts
  import opened Budget
  import opened Archives
  import opened ArchiveHost
  import opened ExtractFaults

  /** m is m0, apart from new directories on the way to the target, at most one new file beside
      it, and the target itself, which holds what it held or, if there is a content to be stored,
      all of that. */
  ghost predicate Atomic(m0: Tree, m: Tree, dst: Path, content: Option<Bytes>)
    requires dst != []
  {
    && (forall p :: p in m0 && p != dst ==> p in m && m[p] == m0[p])
    && (Get(m, dst) == Get(m0, dst) || (content.Some? && dst in m && m[dst].File? && m[dst].data == content.value))
    && (forall p, q :: p in m && p !in m0 && q in m && q !in m0 && !(p <= dst) && !(q <= dst) ==> p == q)
    && (forall p :: p in m && p !in m0 ==> p < dst || (|p| == |dst| && Parent(p) == Parent(dst) && m[p].File?))
  }

  /** No file remains beside the target that was not there before. */
  ghost predicate NoLitter(m0: Tree, m: Tree, dst: Path) {
    forall p :: p in m && p !in m0 ==> p <= dst
  }

  ghost predicate AlwaysAtomic(history: seq<World>, start: nat, m0: Tree, dst: Path, content: Option<Bytes>)
    requires dst != []
  {
    forall i :: start <= i < |history| ==> Atomic(m0, history[i].nodes, dst, content)
  }

  lemma NothingYet(history: seq<World>, m0: Tree, dst: Path, content: Option<Bytes>)
    requires dst != []
    ensures AlwaysAtomic(history, |history|, m0, dst, content)
  {
  }

  lemma AtomicStep(history: seq<World>, w: World, start: nat, m0: Tree, dst: Path, content: Option<Bytes>)
    requires dst != [] && start <= |history| && AlwaysAtomic(history, start, m0, dst, content)
      && Atomic(m0, w.nodes, dst, content)
    ensures AlwaysAtomic(history + [w], start, m0, dst, content)
  {
  }

  // ------------------------------------------------------------------ io.LimitReader

  function Cut(pieces: seq<Bytes>, n: nat): seq<Bytes> {
    if pieces == [] || n == 0 then []
    else if |pieces[0]| <= n then [pieces[0]] + Cut(pieces[1..], n - |pieces[0]|)
    else [pieces[0][..n]]
  }

  /** At most n bytes of the stream; with n of them delivered the end is reported, and what
      follows is not even read. */
  function LimitReader(src: Stream, n: int): Stream {
    if n <= 0 then Stream([], false)
    else if Total(src.pieces) >= n then Stream(Cut(src.pieces, n), false)
    else src
  }

  lemma {:induction false} CutTotal(pieces: seq<Bytes>, n: nat)
    ensures Total(Cut(pieces, n)) == if Total(pieces) < n then Total(pieces) else n
  {
    if pieces != [] && n > 0 {
      if |pieces[0]| <= n {
        CutTotal(pieces[1..], n - |pieces[0]|);
        assert Cut(pieces, n)[1..] == Cut(pieces[1..], n - |pieces[0]|);
      } else {
        assert Cut(pieces, n)[1..] == [];
      }
    }
  }

  /** Reading one byte more than the limit tells a body that fits from one that does not: what is
      delivered is the whole body if its length is within the limit, and otherwise more than the
      limit, for every limit that leaves room for that byte. */
  lemma LimitPlusOne(src: Stream, limit: int)
    requires 0 < limit < MAX_INT64
    ensures var r := LimitReader(src, Wrap(limit + 1));
      && (Total(src.pieces) <= limit ==> r == src)
      && (Total(src.pieces) > limit ==> Total(r.pieces) == limit + 1)
  {
    CutTotal(src.pieces, limit + 1);
  }

  /** Without the guard for the largest limit the extra byte would overflow, and every download
      would be stored empty. */
  lemma GuardIsNeeded(src: Stream)
    ensures LimitReader(src, Wrap(MAX_INT64 + 1)) == Stream([], false)
  {
  }

  // ------------------------------------------------------------------ calls on the temporary file

  /** A place for a temporary file: another name in the target's directory. */
  predicate Sibling(dst: Path, tmp: Path) {
    dst != [] && tmp != [] && |tmp| == |dst| && Parent(tmp) == Parent(dst) && tmp != dst && AllReal(tmp)
  }

  /** The path names the place dst: its directory, by whatever symlinks, is the one dst is in. */
  ghost predicate Leads(env: Env, m: Tree, path: Path, dst: Path) {
    && path != [] && dst != [] && Last(path) == Last(dst)
    && LeadsTo(env, m, Parent(path), Parent(dst)) && IsDir(m, Parent(dst))
  }

  /** The name of a file in the directory of the target. */
  function Beside(path: Path, q: Path): Path
    requires path != [] && q != []
  {
    Parent(path) + [Last(q)]
  }

  /** A name in that directory is found there. */
  lemma NameThere(env: Env, m: Tree, path: Path, dst: Path, q: Path, follow: bool)
    requires WF(m) && Leads(env, m, path, dst) && q != [] && Parent(q) == Parent(dst) && AllReal(q)
    requires follow && q in m ==> !m[q].Link?
    ensures var r := Locate(env, m, Beside(path, q), follow);
      if q in m then r.Found? && r.path == q else r == Missing(q)
  {
    var name := Last(q);
    assert Parent(q) + [name] == q && [name][1..] == [] && Real(name);
    WalkOn(m, [], false, [], Parent(path), [name], env.maxLinks, follow);
  }

  lemma LeadsKept(env: Env, m: Tree, m2: Tree, path: Path, dst: Path)
    requires Leads(env, m, path, dst) && (forall p :: p in m ==> p in m2 && SameKind(m[p], m2[p]))
    ensures Leads(env, m2, path, dst)
  {
    hide Walk;
    WalkKept(m, m2, [], Parent(path), env.maxLinks, true);
  }

  lemma PathBeside(path: Path, dst: Path)
    requires path != [] && dst != [] && Last(path) == Last(dst)
    ensures Beside(path, dst) == path
  {
  }

  /** A world with the temporary file tmp beside the target. */
  ghost predicate WithTemp(m0: Tree, m: Tree, dst: Path, tmp: Path) {
    && dst != [] && AllReal(dst) && WF(m)
    && Sibling(dst, tmp)
    && tmp !in m0 && tmp in m && m[tmp].File?
    && (forall p :: p in m0 ==> p in m && m[p] == m0[p])
    && (forall p :: p in m && p !in m0 ==> p == tmp || p < dst)
  }

  lemma WithTempAtomic(m0: Tree, m: Tree, dst: Path, tmp: Path, content: Option<Bytes>)
    requires WithTemp(m0, m, dst, tmp)
    ensures Atomic(m0, m, dst, content)
  {
    assert dst in m ==> dst in m0;
  }

  /** Changing the temporary file keeps everything else. */
  lemma WithTempSet(m0: Tree, m: Tree, dst: Path, tmp: Path, f: Node)
    requires WithTemp(m0, m, dst, tmp) && f.File?
    ensures WithTemp(m0, m[tmp := f], dst, tmp)
  {
    assert IsDir(m, Parent(tmp));
    PutWF(m, tmp, f);
  }

  /** Removing the temporary file leaves what was there before, and the directories made. */
  lemma RemoveTemp(env: Env, m0: Tree, w: World, path: Path, dst: Path, tmp: Path)
    requires WithTemp(m0, w.nodes, dst, tmp) && Leads(env, w.nodes, path, dst)
    ensures RemoveAll(env, w, Beside(path, tmp)).nodes == w.nodes - {tmp}
    ensures RemoveAll(env, w, Beside(path, tmp)).tick == w.tick + 1
  {
    hide Locate;
    var m := w.nodes;
    NameThere(env, m, path, dst, tmp, false);
    forall p | p in m && tmp <= p
      ensures p == tmp
    {
      NoneBelow(m, tmp, p);
    }
    assert Without(m, tmp) == m - {tmp};
  }

  lemma TempGone(m0: Tree, m: Tree, dst: Path, tmp: Path)
    requires WithTemp(m0, m, dst, tmp)
    ensures NoLitter(m0, m - {tmp}, dst) && Untouched(m0, m - {tmp}, dst)
  {
    assert dst in m ==> dst in m0;
  }

  lemma WriteTick(env: Env, w: World, q: Path, data: Bytes)
    ensures var r := Write(env, w, q, data); r.w.tick == w.tick + 1 && (r.ok ==> !env.fault(w.tick))
  {
  }

  /** No call fails in that time, but for one at most. */
  ghost predicate AllButOne(env: Env, from: nat, to: nat) {
    exists s: nat :: AllBut(env, from, to, s)
  }

  ghost predicate AllBut(env: Env, from: nat, to: nat, s: nat) {
    forall t: nat :: from <= t < to && t != s ==> !env.fault(t)
  }

  /** io.Copy: the number of bytes is a 64-bit integer. */
  method Copy(h: Host, q: Path, src: Stream) returns (n: int, ok: bool)
    requires q != [] && q in h.w.nodes && h.w.nodes[q].File? && h.w.nodes[q].data == []
    modifies h
    ensures var m := old(h.w.nodes);
      && q in h.w.nodes && h.w.nodes[q].File? && h.w.nodes == m[q := h.w.nodes[q]] && h.w.nodes[q].perm == m[q].perm
    ensures ok ==> h.w.nodes[q].data == Flat(src.pieces) && !src.broken
    ensures n <= MAX_INT64 && (ok && Total(src.pieces) <= MAX_INT64 ==> n == Total(src.pieces))
    ensures NoFault(h.env) ==> (ok <==> !src.broken)
    ensures ok ==> h.w.tick == old(h.w.tick) + |src.pieces| && NoneFails(h.env, old(h.w.tick), |src.pieces|)
    ensures old(h.history) <= h.history && FileHistory(h.history, |old(h.history)|, old(h.w.nodes), q)
  {
    hide Walk, Os.Write, Put, FileHistory;
    ghost var m := h.w.nodes;
    ghost var count: nat := 0;
    NoFileHistory(h.history, m, q);
    n := 0;
    assert src.pieces[0..] == src.pieces;
    var i := 0;
    while i < |src.pieces|
      invariant 0 <= i <= |src.pieces|
      invariant q in h.w.nodes && h.w.nodes[q].File? && h.w.nodes == m[q := h.w.nodes[q]]
        && h.w.nodes[q].perm == m[q].perm
      invariant h.w.nodes[q].data + Flat(src.pieces[i..]) == Flat(src.pieces)
      invariant count + Total(src.pieces[i..]) == Total(src.pieces)
      invariant h.w.tick == old(h.w.tick) + i && NoneFails(h.env, old(h.w.tick), i)
      invariant n <= MAX_INT64 && (count <= MAX_INT64 ==> n == count)
      invariant old(h.history) <= h.history && FileHistory(h.history, |old(h.history)|, m, q)
    {
      var piece := src.pieces[i];
      assert src.pieces[i..][0] == piece && src.pieces[i..][1..] == src.pieces[i + 1..];
      WriteEffect(h.env, h.w, q, piece);
      ghost var before, history, data := h.w, h.history, h.w.nodes[q].data;
      ok := h.Write(q, piece);
      FileStep(history, h.history, |old(h.history)|, m, before, h.w, q);
      WriteTick(h.env, before, q, piece);
      if !ok {
        return;
      }
      assert data + (piece + Flat(src.pieces[i + 1..])) == data + piece + Flat(src.pieces[i + 1..]);
      n := Wrap(n + |piece|);
      count := count + |piece|;
      i := i + 1;
    }
    assert h.w.nodes[q].data + [] == h.w.nodes[q].data;
    ok := !src.broken;
  }

  // ------------------------------------------------------------------ the temporary file

  /** A world that has nothing new but directories on the way to the target. */
  ghost predicate DirsReady(m0: Tree, m: Tree, dst: Path) {
    && dst != [] && AllReal(dst) && WF(m)
    && (forall p :: p in m0 ==> p in m && m[p] == m0[p])
    && (forall p :: p in m && p !in m0 ==> p < dst)
  }

  /** The target is not named like a temporary file. */
  ghost predicate OwnName(env: Env, dst: Path)
    requires dst != []
  {
    FreshNames(env) && forall s :: env.temp(Parent(dst), s) != Last(dst)
  }

  lemma TempAt(m0: Tree, m: Tree, dst: Path, tmp: Path, f: Node)
    requires DirsReady(m0, m, dst) && IsDir(m, Parent(dst)) && Sibling(dst, tmp) && tmp !in m && f.File?
    ensures WithTemp(m0, m[tmp := f], dst, tmp) && m[tmp := f] - {tmp} == m
  {
    PutWF(m, tmp, f);
  }

  lemma NameIsFree(env: Env, m: Tree, dst: Path)
    requires dst != [] && AllReal(dst) && OwnName(env, dst)
    ensures var tmp := Parent(dst) + [env.temp(Parent(dst), Names(m, Parent(dst)))];
      Sibling(dst, tmp) && tmp !in m
  {
    var up := Parent(dst);
    var name := env.temp(up, Names(m, up));
    var tmp := up + [name];
    assert Parent(tmp) == up && Last(tmp) == name;
    assert dst == up + [Last(dst)];
    assert tmp[|up|] == name;
    assert tmp in m ==> name in Names(m, up);
  }

  lemma TempMade(env: Env, m0: Tree, w: World, path: Path, dst: Path)
    requires DirsReady(m0, w.nodes, dst) && OwnName(env, dst) && Leads(env, w.nodes, path, dst)
    ensures var r := CreateTemp(env, w, Parent(path));
      && r.w.tick == w.tick + 1
      && (r.file.Some? <==> !env.fault(w.tick))
      && (r.file.Some? ==> && WithTemp(m0, r.w.nodes, dst, r.file.value) && Sibling(dst, r.file.value)
                           && r.file.value !in w.nodes && r.w.nodes - {r.file.value} == w.nodes
                           && r.w.nodes[r.file.value] == File([], env.masked(384))
                           && Leads(env, r.w.nodes, path, dst))
      && (r.file.None? ==> r.w.nodes == w.nodes)
  {
    hide Locate, WithTemp;
    var m := w.nodes;
    var r := CreateTemp(env, w, Parent(path));
    if r.file.Some? {
      NameIsFree(env, m, dst);
      TempAt(m0, m, dst, r.file.value, r.w.nodes[r.file.value]);
      assert r.w.nodes == m[r.file.value := r.w.nodes[r.file.value]];
      LeadsKept(env, m, r.w.nodes, path, dst);
    }
  }

  lemma TempRemoved(env: Env, m0: Tree, w: World, path: Path, dst: Path, tmp: Path, m: Tree)
    requires WithTemp(m0, w.nodes, dst, tmp) && w.nodes - {tmp} == m && Leads(env, w.nodes, path, dst)
    ensures var r := Remove(env, w, Beside(path, tmp));
      && r.w.tick == w.tick + 1
      && (r.ok <==> !env.fault(w.tick))
      && r.w.nodes == if r.ok then m else w.nodes
  {
    hide Locate;
    NameThere(env, w.nodes, path, dst, tmp, false);
  }

  lemma TempRemade(env: Env, m0: Tree, w: World, path: Path, dst: Path, tmp: Path, perm: nat)
    requires DirsReady(m0, w.nodes, dst) && Leads(env, w.nodes, path, dst)
    requires Sibling(dst, tmp) && tmp !in w.nodes
    ensures var r := CreateNew(env, w, Beside(path, tmp), perm);
      && r.w.tick == w.tick + 1
      && (r.file.Some? <==> !env.fault(w.tick))
      && (r.file.Some? ==> r.file.value == tmp && WithTemp(m0, r.w.nodes, dst, tmp)
                           && r.w.nodes[tmp] == File([], env.masked(perm))
                           && Leads(env, r.w.nodes, path, dst))
      && (r.file.None? ==> r.w.nodes == w.nodes)
  {
    hide Locate;
    NameThere(env, w.nodes, path, dst, tmp, false);
    var r := CreateNew(env, w, Beside(path, tmp), perm);
    if r.file.Some? {
      TempAt(m0, w.nodes, dst, tmp, r.w.nodes[tmp]);
      LeadsKept(env, w.nodes, r.w.nodes, path, dst);
    }
  }

  /** The call of createDownloadTemp whose failure leaves the file behind. */
  predicate Leaks(env: Env, tick: nat) {
    !env.fault(tick) && !env.fault(tick + 1) && env.fault(tick + 2)
  }

  predicate FourCalls(env: Env, t: nat) {
    !env.fault(t) && !env.fault(t + 1) && !env.fault(t + 2) && !env.fault(t + 3)
  }

  method CreateDownloadTemp(h: Host, path: Path, ghost dst: Path, ghost m0: Tree, ghost content: Option<Bytes>)
    returns (file: Option<Path>, ghost litter: Path)
    requires DirsReady(m0, h.w.nodes, dst) && OwnName(h.env, dst) && Leads(h.env, h.w.nodes, path, dst)
    modifies h
    ensures file.Some? ==>
      && WithTemp(m0, h.w.nodes, dst, file.value) && Leads(h.env, h.w.nodes, path, dst)
      && h.w.nodes[file.value] == File([], h.env.masked(438))
    ensures file.None? && !Leaks(h.env, old(h.w.tick)) ==> DirsReady(m0, h.w.nodes, dst)
    ensures Leaks(h.env, old(h.w.tick)) ==> file.None? && WithTemp(m0, h.w.nodes, dst, litter)
    ensures NoFault(h.env) ==> file.Some?
    ensures file.Some? ==> h.w.tick == old(h.w.tick) + 4 && FourCalls(h.env, old(h.w.tick))
    ensures old(h.history) <= h.history && AlwaysAtomic(h.history, |old(h.history)|, m0, dst, content)
  {
    hide Walk, Atomic, AlwaysAtomic, WithTemp, DirsReady, Sibling, OwnName, WF, Leads, NoneFails, Beside;
    hide Os.CreateTemp, Os.CreateNew, Os.Remove, Os.RemoveAll;
    ghost var m, start := h.w.nodes, |h.history|;
    TargetNamed(h.env, m, path, dst);
    PreparedAtomic(m0, m, dst, content);
    NothingYet(h.history, m0, dst, content);
    TempMade(h.env, m0, h.w, path, dst);
    ghost var before := h.history;
    litter := [];
    var f := h.CreateTemp(Parent(path));
    if f.None? {
      AtomicStep(before, h.w, start, m0, dst, content);
      return None, litter;
    }
    var tmp := f.value;
    litter := tmp;
    TempIsFile(m0, h.w.nodes, dst, tmp);
    var name := Beside(path, tmp);
    WithTempAtomic(m0, h.w.nodes, dst, tmp, content);
    AtomicStep(before, h.w, start, m0, dst, content);
    before := h.history;
    var ok := h.Call();
    AtomicStep(before, h.w, start, m0, dst, content);
    before := h.history;
    if !ok {
      RemoveTemp(h.env, m0, h.w, path, dst, tmp);
      h.RemoveAll(name);
      AtomicStep(before, h.w, start, m0, dst, content);
      return None, litter;
    }
    TempRemoved(h.env, m0, h.w, path, dst, tmp, m);
    ok := h.Remove(name);
    AtomicStep(before, h.w, start, m0, dst, content);
    if !ok {
      return None, litter;
    }
    before := h.history;
    TempRemade(h.env, m0, h.w, path, dst, tmp, 438);
    file := h.CreateNew(name, 438);  // 0666
    if file.Some? {
      WithTempAtomic(m0, h.w.nodes, dst, tmp, content);
    }
    AtomicStep(before, h.w, start, m0, dst, content);
  }

  lemma TargetNamed(env: Env, m: Tree, path: Path, dst: Path)
    requires Leads(env, m, path, dst)
    ensures path != [] && dst != []
  {
    hide Locate;
  }

  /** Files in its directory make no difference to where the path of the target leads. */
  lemma TempLeads(env: Env, m0: Tree, m: Tree, m2: Tree, path: Path, dst: Path, tmp: Path)
    requires Leads(env, m, path, dst) && WithTemp(m0, m2, dst, tmp)
    requires m2 == m[tmp := m2[tmp]] && (tmp in m ==> m[tmp].File?)
    ensures tmp != [] && Leads(env, m2, path, dst)
  {
    LeadsKept(env, m, m2, path, dst);
  }

  lemma PreparedAtomic(m0: Tree, m: Tree, dst: Path, content: Option<Bytes>)
    requires DirsReady(m0, m, dst)
    ensures Atomic(m0, m, dst, content) && NoLitter(m0, m, dst) && Get(m, dst) == Get(m0, dst)
  {
  }

  // ------------------------------------------------------------------ into place

  /** m is m0 with the complete content at the target, and missing directories on the way to it. */
  ghost predicate Replaced(m0: Tree, m: Tree, dst: Path, content: Bytes) {
    && dst in m && m[dst].File? && m[dst].data == content
    && (forall p :: p in m0 && p != dst ==> p in m && m[p] == m0[p])
    && (forall p :: p in m && p !in m0 ==> p <= dst)
  }

  lemma RenameEffect(env: Env, m0: Tree, w: World, path: Path, dst: Path, tmp: Path)
    requires WithTemp(m0, w.nodes, dst, tmp) && Leads(env, w.nodes, path, dst)
    ensures var r, m := Rename(env, w, Beside(path, tmp), path), w.nodes;
      && r.w.tick == w.tick + 1
      && (r.ok <==> !env.fault(w.tick) && !IsDir(m0, dst))
      && r.w.nodes == if r.ok then (m - {tmp})[dst := m[tmp]] else m
    ensures var m := (w.nodes - {tmp})[dst := w.nodes[tmp]];
      Replaced(m0, m, dst, w.nodes[tmp].data) && Atomic(m0, m, dst, Some(w.nodes[tmp].data))
  {
    hide Locate;
    var m := w.nodes;
    PathBeside(path, dst);
    NameThere(env, m, path, dst, tmp, false);
    NameThere(env, m, path, dst, dst, false);
    assert dst in m ==> dst in m0;
    assert IsDir(m, Parent(tmp));
    assert Parent(dst) != tmp by {
      assert |Parent(dst)| < |tmp|;
    }
  }

  lemma CopyHistory(history: seq<World>, start: nat, from: nat, m0: Tree, m: Tree, dst: Path, tmp: Path,
                    content: Option<Bytes>)
    requires WithTemp(m0, m, dst, tmp) && start <= from <= |history|
    requires AlwaysAtomic(history[..from], start, m0, dst, content) && FileHistory(history, from, m, tmp)
    ensures AlwaysAtomic(history, start, m0, dst, content)
  {
    forall i | start <= i < |history|
      ensures Atomic(m0, history[i].nodes, dst, content)
    {
      if i < from {
        assert history[i] == history[..from][i];
      } else {
        var f := history[i].nodes[tmp];
        WithTempSet(m0, m, dst, tmp, f);
        WithTempAtomic(m0, m[tmp := f], dst, tmp, content);
      }
    }
  }

  /** The limits on a response: no limit is configured, or the announced and the actual length
      are within it; the largest 64-bit value is no limit on the actual length. */
  predicate WithinLimit(contentLength: int, length: nat, max: int) {
    max > 0 ==> contentLength <= max && (max < MAX_INT64 ==> length <= max)
  }

  /** What an HTTP run may store: the whole body, if it can be read and is within the limits. */
  function Valid(body: Stream, contentLength: int, max: int): Option<Bytes> {
    if !body.broken && WithinLimit(contentLength, Total(body.pieces), max) then Some(Flat(body.pieces)) else None
  }

  /** Close, once the content has been validated. */
  method CloseTemp(h: Host, ghost dst: Path, ghost tmp: Path, ghost m0: Tree, ghost start: nat,
                   ghost content: Option<Bytes>)
    returns (ok: bool)
    requires dst != [] && WithTemp(m0, h.w.nodes, dst, tmp)
    requires start <= |h.history| && AlwaysAtomic(h.history, start, m0, dst, content)
    modifies h
    ensures h.w.nodes == old(h.w.nodes) && (NoFault(h.env) ==> ok)
    ensures h.w.tick == old(h.w.tick) + 1 && (ok <==> !h.env.fault(old(h.w.tick)))
    ensures old(h.history) <= h.history && AlwaysAtomic(h.history, start, m0, dst, content)
  {
    hide Walk, Atomic, AlwaysAtomic, WithTemp;
    WithTempAtomic(m0, h.w.nodes, dst, tmp, content);
    ghost var before := h.history;
    ok := h.Call();
    AtomicStep(before, h.w, start, m0, dst, content);
  }

  /** Rename, once the file is complete. */
  method MoveIntoPlace(h: Host, path: Path, ghost dst: Path, tmp: Path, ghost m0: Tree, ghost start: nat,
                       ghost content: Option<Bytes>)
    returns (ok: bool)
    requires WithTemp(m0, h.w.nodes, dst, tmp) && content == Some(h.w.nodes[tmp].data)
    requires Leads(h.env, h.w.nodes, path, dst)
    requires start <= |h.history| && AlwaysAtomic(h.history, start, m0, dst, content)
    modifies h
    ensures if ok then Replaced(m0, h.w.nodes, dst, content.value) else WithTemp(m0, h.w.nodes, dst, tmp)
    ensures !ok ==> Leads(h.env, h.w.nodes, path, dst)
    ensures h.w.tick == old(h.w.tick) + 1 && (ok ==> !h.env.fault(old(h.w.tick)))
    ensures ok ==> h.w.nodes[dst] == old(h.w.nodes[tmp])
    ensures NoFault(h.env) ==> (ok <==> !IsDir(m0, dst))
    ensures old(h.history) <= h.history && AlwaysAtomic(h.history, start, m0, dst, content)
  {
    hide Walk, Atomic, AlwaysAtomic, Os.Rename, WithTemp, Replaced, Leads;
    WithTempAtomic(m0, h.w.nodes, dst, tmp, content);
    TargetNamed(h.env, h.w.nodes, path, dst);
    TempIsFile(m0, h.w.nodes, dst, tmp);
    ghost var before := h.history;
    RenameEffect(h.env, m0, h.w, path, dst, tmp);
    ok := h.Rename(Beside(path, tmp), path);
    AtomicStep(before, h.w, start, m0, dst, content);
  }

  /** The mode of what the path leads to, symlinks followed, or another one if it leads nowhere. */
  function ModeFound(env: Env, m: Tree, path: Path, other: nat): nat {
    var r := Locate(env, m, path, true);
    if r.Found? && r.path in m && !m[r.path].Link? then m[r.path].perm else other
  }

  /** If the target exists, the temporary file gets its mode, or that of the file it is a symlink
      to. */
  method PreserveMode(h: Host, path: Path, ghost dst: Path, tmp: Path, ghost m0: Tree, ghost start: nat,
                      ghost content: Option<Bytes>)
    returns (ok: bool)
    requires WithTemp(m0, h.w.nodes, dst, tmp) && Leads(h.env, h.w.nodes, path, dst)
    requires start <= |h.history| && AlwaysAtomic(h.history, start, m0, dst, content)
    modifies h
    ensures WithTemp(m0, h.w.nodes, dst, tmp) && h.w.nodes[tmp].data == old(h.w.nodes[tmp].data)
    ensures Leads(h.env, h.w.nodes, path, dst)
    ensures NoFault(h.env) ==> ok
    ensures old(h.w.tick) + 1 <= h.w.tick <= old(h.w.tick) + 2
    ensures ok && h.w.tick == old(h.w.tick) + 2 ==> !h.env.fault(old(h.w.tick) + 1)
    ensures NoFault(h.env) && (dst in m0 ==> !m0[dst].Link?) ==>
      h.w.nodes[tmp].perm == if dst in m0 then m0[dst].perm else old(h.w.nodes[tmp].perm)
    ensures NoFault(h.env) ==>
      h.w.nodes[tmp].perm == ModeFound(h.env, old(h.w.nodes), path, old(h.w.nodes[tmp].perm))
    ensures old(h.history) <= h.history && AlwaysAtomic(h.history, start, m0, dst, content)
  {
    hide Walk, Atomic, AlwaysAtomic, Leads, Os.Chmod;
    WithTempAtomic(m0, h.w.nodes, dst, tmp, content);
    TargetStatus(h.env, m0, h.w, path, dst, tmp);
    ghost var before := h.history;
    var status := h.Stat(path);
    AtomicStep(before, h.w, start, m0, dst, content);
    if !status.Exists? || status.node.Link? {
      return true;
    }
    TargetNamed(h.env, h.w.nodes, path, dst);
    before := h.history;
    TempMode(h.env, m0, h.w, path, dst, tmp, status.node.perm);
    ok := h.Chmod(Beside(path, tmp), status.node.perm);
    WithTempAtomic(m0, h.w.nodes, dst, tmp, content);
    AtomicStep(before, h.w, start, m0, dst, content);
  }

  lemma TempMode(env: Env, m0: Tree, w: World, path: Path, dst: Path, tmp: Path, perm: nat)
    requires WithTemp(m0, w.nodes, dst, tmp) && Leads(env, w.nodes, path, dst)
    ensures var r, m := Chmod(env, w, Beside(path, tmp), perm), w.nodes;
      && r.w.tick == w.tick + 1
      && (r.ok <==> !env.fault(w.tick))
      && r.w.nodes == (if r.ok then m[tmp := m[tmp].(perm := perm)] else m)
      && WithTemp(m0, r.w.nodes, dst, tmp) && Leads(env, r.w.nodes, path, dst)
  {
    hide Locate, Leads;
    var m := w.nodes;
    TargetNamed(env, m, path, dst);
    NameThere(env, m, path, dst, tmp, true);
    WithTempSet(m0, m, dst, tmp, m[tmp].(perm := perm));
    LeadsKept(env, m, m[tmp := m[tmp].(perm := perm)], path, dst);
  }

  lemma TargetStatus(env: Env, m0: Tree, w: World, path: Path, dst: Path, tmp: Path)
    requires WithTemp(m0, w.nodes, dst, tmp) && Leads(env, w.nodes, path, dst)
    ensures var status := Stat(env, w, path);
      !env.fault(w.tick) && (dst in m0 ==> !m0[dst].Link?) ==>
        status == if dst in m0 then Exists(m0[dst]) else NotExist
  {
    hide Locate;
    assert dst in w.nodes ==> dst in m0;
    PathBeside(path, dst);
    if dst in m0 ==> !m0[dst].Link? {
      NameThere(env, w.nodes, path, dst, dst, true);
    }
  }

  /** Gather, from the temporary file on: stream the bounded body, validate its size, move it into
      place. */
  method StoreBody(h: Host, path: Path, ghost dst: Path, tmp: Path, body: Stream,
                   contentLength: Int64, maxResponseBytes: Int64, ghost m0: Tree, ghost start: nat)
    returns (ok: bool, size: int)
    requires WithTemp(m0, h.w.nodes, dst, tmp) && h.w.nodes[tmp].data == [] && Leads(h.env, h.w.nodes, path, dst)
    requires start <= |h.history|
    requires AlwaysAtomic(h.history, start, m0, dst, Valid(body, contentLength, maxResponseBytes))
    modifies h
    ensures if ok then Replaced(m0, h.w.nodes, dst, Flat(body.pieces)) else WithTemp(m0, h.w.nodes, dst, tmp)
    ensures !ok ==> Leads(h.env, h.w.nodes, path, dst)
    ensures ok ==> !body.broken && WithinLimit(contentLength, Total(body.pieces), maxResponseBytes)
    ensures ok && Total(body.pieces) <= MAX_INT64 ==> size == Total(body.pieces)
    ensures ok ==> AllButOne(h.env, old(h.w.tick), h.w.tick)
    ensures ok ==> 3 <= h.w.tick - old(h.w.tick) - |body.pieces| <= 4
    ensures NoFault(h.env) ==>
      (ok <==> WithinLimit(contentLength, Total(body.pieces), maxResponseBytes) && !body.broken && !IsDir(m0, dst))
    ensures NoFault(h.env) && ok && (dst in m0 ==> !m0[dst].Link?) ==>
      h.w.nodes[dst].perm == if dst in m0 then m0[dst].perm else old(h.w.nodes[tmp].perm)
    ensures NoFault(h.env) && ok ==>
      h.w.nodes[dst].perm == ModeFound(h.env, old(h.w.nodes), path, old(h.w.nodes[tmp].perm))
    ensures old(h.history) <= h.history
    ensures AlwaysAtomic(h.history, start, m0, dst, Valid(body, contentLength, maxResponseBytes))
  {
    hide Walk, Atomic, AlwaysAtomic, WithTemp, Replaced, Sibling, Cut, Flat, Total, Leads, ModeFound;
    ghost var content := Valid(body, contentLength, maxResponseBytes);
    size := 0;
    var reader := body;
    if maxResponseBytes > 0 {
      if contentLength > maxResponseBytes {
        return false, 0;
      }
      if maxResponseBytes < MAX_INT64 {
        reader := LimitReader(body, Wrap(maxResponseBytes + 1));
        LimitPlusOne(body, maxResponseBytes);
      }
    }
    ghost var m, from := h.w.nodes, |h.history|;
    TempIsFile(m0, m, dst, tmp);
    size, ok := Copy(h, tmp, reader);
    WithTempSet(m0, m, dst, tmp, h.w.nodes[tmp]);
    TempLeads(h.env, m0, m, h.w.nodes, path, dst, tmp);
    FilledMode(h.env, m, path, tmp, h.w.nodes[tmp], m[tmp].perm);
    assert h.history[..from] == old(h.history);
    CopyHistory(h.history, start, from, m0, m, dst, tmp, content);
    if !ok {
      return;
    }
    if maxResponseBytes > 0 && size > maxResponseBytes {
      return false, size;
    }
    assert reader == body;
    ghost var stat := h.w.tick;
    ok := PreserveMode(h, path, dst, tmp, m0, start, content);
    if !ok {
      return;
    }
    ok := CloseTemp(h, dst, tmp, m0, start, content);
    if !ok {
      return;
    }
    ok := MoveIntoPlace(h, path, dst, tmp, m0, start, content);
    assert ok ==> AllBut(h.env, old(h.w.tick), h.w.tick, stat);
  }

  /** Contents make no difference to where a path leads, nor to the mode found there. */
  lemma FilledMode(env: Env, m: Tree, path: Path, tmp: Path, f: Node, other: nat)
    requires tmp in m && m[tmp].File? && f.File? && f.perm == m[tmp].perm
    ensures ModeFound(env, m[tmp := f], path, other) == ModeFound(env, m, path, other)
  {
    hide Walk;
    if Locate(env, m, path, true).Found? {
      WalkKept(m, m[tmp := f], [], path, env.maxLinks, true);
    } else if Locate(env, m[tmp := f], path, true).Found? {
      WalkKept(m[tmp := f], m, [], path, env.maxLinks, true);
    }
  }

  lemma TempIsFile(m0: Tree, m: Tree, dst: Path, tmp: Path)
    requires WithTemp(m0, m, dst, tmp)
    ensures tmp != [] && tmp in m && m[tmp].File?
  {
  }

  /** The deferred cleanup: the temporary file is removed, and nothing is left of the run. */
  method Discard(h: Host, path: Path, ghost dst: Path, tmp: Path, ghost m0: Tree, ghost start: nat,
                 ghost content: Option<Bytes>)
    requires WithTemp(m0, h.w.nodes, dst, tmp) && Leads(h.env, h.w.nodes, path, dst)
    requires start <= |h.history| && AlwaysAtomic(h.history, start, m0, dst, content)
    modifies h
    ensures Untouched(m0, h.w.nodes, dst) && NoLitter(m0, h.w.nodes, dst)
    ensures h.w.tick == old(h.w.tick) + 1
    ensures old(h.history) <= h.history && AlwaysAtomic(h.history, start, m0, dst, content)
  {
    hide Walk, AlwaysAtomic, Os.RemoveAll;
    ghost var before := h.history;
    TempGone(m0, h.w.nodes, dst, tmp);
    RemoveTemp(h.env, m0, h.w, path, dst, tmp);
    h.RemoveAll(Beside(path, tmp));
    AtomicStep(before, h.w, start, m0, dst, content);
  }

  /** Every node that was there is there unchanged, and the target is as it was. */
  ghost predicate Untouched(m0: Tree, m: Tree, dst: Path) {
    && (forall p :: p in m0 ==> p in m && m[p] == m0[p])
    && Get(m, dst) == Get(m0, dst)
  }

  /** The new directories on the way to dst have that mode. */
  ghost predicate NewDirs(m0: Tree, m: Tree, dst: Path, perm: nat) {
    forall p :: p in m && p !in m0 && p < dst ==> m[p] == Dir(perm)
  }

  /** What has been seen since the directories were made, seen from before. */
  lemma HistorySince(before: seq<World>, history: seq<World>, start: nat, m0: Tree, m1: Tree, dst: Path,
                     content: Option<Bytes>)
    requires dst != [] && start <= |before| && before <= history && DirsReady(m0, m1, dst)
    requires AlwaysAtomic(before, start, m0, dst, content) && AlwaysAtomic(history, |before|, m1, dst, content)
    ensures AlwaysAtomic(history, start, m0, dst, content)
  {
    forall i | start <= i < |history|
      ensures Atomic(m0, history[i].nodes, dst, content)
    {
      if i < |before| {
        assert history[i] == before[i];
      }
    }
  }

  lemma ReplacedSince(m0: Tree, m1: Tree, m: Tree, dst: Path, content: Bytes, perm: nat)
    requires DirsReady(m0, m1, dst) && IsDir(m1, Parent(dst)) && NewDirs(m0, m1, dst, perm)
    requires Replaced(m1, m, dst, content)
    ensures Replaced(m0, m, dst, content) && NewDirs(m0, m, dst, perm)
  {
    DirsThere(m1, dst);
  }

  lemma UntouchedSince(m0: Tree, m1: Tree, m: Tree, dst: Path, perm: nat)
    requires DirsReady(m0, m1, dst) && IsDir(m1, Parent(dst)) && NewDirs(m0, m1, dst, perm)
    requires Untouched(m1, m, dst)
    ensures Untouched(m0, m, dst) && NewDirs(m0, m, dst, perm)
    ensures NoLitter(m1, m, dst) <==> NoLitter(m0, m, dst)
  {
    DirsThere(m1, dst);
  }

  lemma DirsThere(m1: Tree, dst: Path)
    requires dst != [] && WF(m1) && IsDir(m1, Parent(dst))
    ensures forall p :: p < dst ==> p in m1
  {
    forall p | p < dst
      ensures p in m1
    {
      ParentPrefix(p, dst);
      Ancestors(m1, p, Parent(dst));
    }
  }

  /** The mode of the target, if there is one, is the same before the directories are made. */
  lemma ModeSince(env: Env, m0: Tree, m1: Tree, path: Path, dst: Path, other: nat)
    requires NamesTarget(env, m0, path, dst) && WF(m0) && (Leads(env, m0, path, dst) ==> m1 == m0)
    requires DirsReady(m0, m1, dst) && Leads(env, m1, path, dst)
    ensures ModeFound(env, m1, path, other) == ModeFound(env, m0, path, other)
  {
    hide Walk;
    if m1 != m0 {
      ParentMissing(env, m0, dst);
      PathBeside(path, dst);
      NameThere(env, m1, path, dst, dst, true);
    }
  }

  lemma ModeThere(env: Env, m1: Tree, path: Path, dst: Path, other: nat)
    requires DirsReady(m1, m1, dst) && Leads(env, m1, path, dst)
    ensures (dst in m1 ==> !m1[dst].Link?) ==>
      ModeFound(env, m1, path, other) == if dst in m1 then m1[dst].perm else other
  {
    hide Locate;
    PathBeside(path, dst);
    if dst in m1 ==> !m1[dst].Link? {
      NameThere(env, m1, path, dst, dst, true);
    }
  }

  /** And when the temporary file is there. */
  lemma ModeBeside(env: Env, m1: Tree, m2: Tree, path: Path, dst: Path, tmp: Path)
    requires DirsReady(m1, m1, dst) && Leads(env, m1, path, dst) && WithTemp(m1, m2, dst, tmp)
    ensures tmp in m2 && m2[tmp].File?
    ensures ModeFound(env, m2, path, m2[tmp].perm) == ModeFound(env, m1, path, m2[tmp].perm)
  {
    hide Walk;
    DirsThere(m1, dst);
    assert m2 == m1[tmp := m2[tmp]];
    WalkNewFile(m1, tmp, m2[tmp], [], path, env.maxLinks, true);
  }

  lemma ParentMissing(env: Env, m0: Tree, dst: Path)
    requires dst != [] && AllReal(dst) && WF(m0) && Clear(m0, Parent(dst)) && !Leads(env, m0, dst, dst)
    ensures dst !in m0 && !Locate(env, m0, dst, true).Found?
  {
    hide Walk;
    LocateClear(env, m0, Parent(dst), true);
    forall q | q in m0 && q <= dst
      ensures !m0[q].Link?
    {
      if q != dst {
        ParentPrefix(q, dst);
      }
    }
    LocateClear(env, m0, dst, true);
  }

  /** The directory of the path is the one that dst is in, by whatever symlinks; or the path has
      none, and as much of that directory as there is. */
  ghost predicate NamesTarget(env: Env, m: Tree, path: Path, dst: Path) {
    && path != [] && dst != [] && AllReal(path) && AllReal(dst)
    && (Leads(env, m, path, dst) || (path == dst && Clear(m, Parent(dst))))
  }

  lemma DirsPrepared(env: Env, w: World, path: Path, dst: Path, perm: nat)
    requires NamesTarget(env, w.nodes, path, dst) && WF(w.nodes)
    ensures var r := MkdirAll(env, w, Parent(path), perm);
      && DirsReady(w.nodes, r.w.nodes, dst)
      && NewDirs(w.nodes, r.w.nodes, dst, env.masked(perm))
      && (Leads(env, w.nodes, path, dst) ==> r.w.nodes == w.nodes)
      && (r.ok ==> Leads(env, r.w.nodes, path, dst) && IsDir(r.w.nodes, Parent(dst)))
      && (NoFault(env) ==> (r.ok <==> DirsOnWay(w.nodes, Parent(dst))))
  {
    hide Walk;
    var m := w.nodes;
    var r := MkdirAll(env, w, Parent(path), perm);
    if Leads(env, m, path, dst) {
      MkdirAllFound(env, w, Parent(path), perm);
      forall q | q in m && q <= Parent(dst)
        ensures m[q].Dir?
      {
        Ancestors(m, q, Parent(dst));
      }
    } else {
      MkdirAllEffect(env, w, Parent(dst), perm);
      assert Parent(dst) < dst;
      if r.ok {
        forall q | q in r.w.nodes && q <= Parent(dst)
          ensures !r.w.nodes[q].Link?
        {
          Ancestors(r.w.nodes, q, Parent(dst));
        }
        LocateClear(env, r.w.nodes, Parent(dst), true);
      }
    }
  }

  /** The HTTP download, once a response is there.  In every world it goes through, the target
      holds what it held or the complete body, the latter only if the body is readable and within
      the limits, and no other existing file is altered.  It succeeds
      only with the whole body, of a length within the limit; a failed one leaves the target
      unchanged, and the temporary file nowhere, except when the one call fails that removes the
      reserved name. */
  method Gather(h: Host, path: Path, ghost dst: Path, body: Stream, contentLength: Int64, maxResponseBytes: Int64)
    returns (ok: bool, size: int)
    requires WF(h.w.nodes) && NamesTarget(h.env, h.w.nodes, path, dst) && OwnName(h.env, dst)
    modifies h
    ensures AlwaysAtomic(h.history, |old(h.history)|, old(h.w.nodes), dst, Valid(body, contentLength, maxResponseBytes))
    ensures ok ==> Replaced(old(h.w.nodes), h.w.nodes, dst, Flat(body.pieces)) && !body.broken
    ensures ok && maxResponseBytes > 0 ==> contentLength <= maxResponseBytes
    ensures ok && 0 < maxResponseBytes < MAX_INT64 ==> Total(body.pieces) <= maxResponseBytes
    ensures ok && Total(body.pieces) <= MAX_INT64 ==> size == Total(body.pieces)
    ensures !ok ==> Untouched(old(h.w.nodes), h.w.nodes, dst)
    ensures !ok ==> (NoLitter(old(h.w.nodes), h.w.nodes, dst) <==>
      !(var made := MkdirAll(h.env, old(h.w), Parent(path), DIR_MODE); made.ok && Leaks(h.env, made.w.tick)))
    ensures NoFault(h.env) ==>
      (ok <==> && DirsOnWay(old(h.w.nodes), Parent(dst)) && !IsDir(old(h.w.nodes), dst) && !body.broken
               && (maxResponseBytes > 0 ==> contentLength <= maxResponseBytes)
               && (0 < maxResponseBytes < MAX_INT64 ==> Total(body.pieces) <= maxResponseBytes))
    ensures NoFault(h.env) && ok && (dst in old(h.w.nodes) ==> !old(h.w.nodes)[dst].Link?) ==>
      h.w.nodes[dst].perm == if dst in old(h.w.nodes) then old(h.w.nodes)[dst].perm else h.env.masked(438)
    ensures NoFault(h.env) && ok ==>
      h.w.nodes[dst].perm == ModeFound(h.env, old(h.w.nodes), path, h.env.masked(438))  // 0666
    ensures NewDirs(old(h.w.nodes), h.w.nodes, dst, h.env.masked(493))  // 0755
    ensures var made := MkdirAll(h.env, old(h.w), Parent(path), DIR_MODE);
      ok ==> made.ok && AllButOne(h.env, made.w.tick, h.w.tick) && 7 <= h.w.tick - made.w.tick - |body.pieces| <= 8
  {
    hide Walk, Atomic, AlwaysAtomic, WithTemp, DirsReady, MkdirAll, OwnName, Leads;
    ghost var m0, start, content := h.w.nodes, |h.history|, Valid(body, contentLength, maxResponseBytes);
    NothingYet(h.history, m0, dst, content);
    DirsPrepared(h.env, h.w, path, dst, DIR_MODE);
    ghost var before := h.history;
    ok := h.MkdirAll(Parent(path), DIR_MODE);
    PreparedAtomic(m0, h.w.nodes, dst, content);
    AtomicStep(before, h.w, start, m0, dst, content);
    size := 0;
    if !ok {
      PreparedUntouched(m0, h.w.nodes, dst);
      return;
    }
    before := h.history;
    ghost var m1 := h.w.nodes;
    DirsReadySelf(m0, m1, dst);
    ok, size := GatherReady(h, path, dst, body, contentLength, maxResponseBytes);
    ModeSince(h.env, m0, m1, path, dst, h.env.masked(438));
    ModeThere(h.env, m1, path, dst, h.env.masked(438));
    if ok {
      ReplacedSince(m0, m1, h.w.nodes, dst, Flat(body.pieces), h.env.masked(493));
    } else {
      UntouchedSince(m0, m1, h.w.nodes, dst, h.env.masked(493));
    }
    HistorySince(before, h.history, start, m0, m1, dst, content);
  }

  /** Gather, once the directory of the target is there. */
  method GatherReady(h: Host, path: Path, ghost dst: Path, body: Stream, contentLength: Int64, maxResponseBytes: Int64)
    returns (ok: bool, size: int)
    requires DirsReady(h.w.nodes, h.w.nodes, dst) && OwnName(h.env, dst) && Leads(h.env, h.w.nodes, path, dst)
    modifies h
    ensures old(h.history) <= h.history
    ensures AlwaysAtomic(h.history, |old(h.history)|, old(h.w.nodes), dst, Valid(body, contentLength, maxResponseBytes))
    ensures ok ==> Replaced(old(h.w.nodes), h.w.nodes, dst, Flat(body.pieces))
    ensures ok ==> !body.broken && WithinLimit(contentLength, Total(body.pieces), maxResponseBytes)
    ensures ok && Total(body.pieces) <= MAX_INT64 ==> size == Total(body.pieces)
    ensures !ok ==> Untouched(old(h.w.nodes), h.w.nodes, dst)
    ensures !ok ==> (NoLitter(old(h.w.nodes), h.w.nodes, dst) <==> !Leaks(h.env, old(h.w.tick)))
    ensures ok ==> AllButOne(h.env, old(h.w.tick), h.w.tick)
    ensures ok ==> 7 <= h.w.tick - old(h.w.tick) - |body.pieces| <= 8
    ensures NoFault(h.env) ==>
      (ok <==> && !IsDir(old(h.w.nodes), dst) && !body.broken
               && WithinLimit(contentLength, Total(body.pieces), maxResponseBytes))
    ensures NoFault(h.env) && ok ==>
      h.w.nodes[dst].perm == ModeFound(h.env, old(h.w.nodes), path, h.env.masked(438))
  {
    hide Walk, Atomic, AlwaysAtomic, WithTemp, DirsReady, OwnName, Leads, AllButOne, ModeFound, Replaced, WithinLimit;
    ghost var m1, from, begun := h.w.nodes, |h.history|, h.w.tick;
    ghost var content := Valid(body, contentLength, maxResponseBytes);
    TargetNamed(h.env, m1, path, dst);
    size := 0;
    var tmpFile;
    ghost var litter;
    tmpFile, litter := CreateDownloadTemp(h, path, dst, m1, content);
    if tmpFile.None? {
      if Leaks(h.env, begun) {
        TempIsLitter(m1, h.w.nodes, dst, litter);
      } else {
        PreparedUntouched(m1, h.w.nodes, dst);
      }
      return false, 0;
    }
    ModeBeside(h.env, m1, h.w.nodes, path, dst, tmpFile.value);
    ok, size := StoreBody(h, path, dst, tmpFile.value, body, contentLength, maxResponseBytes, m1, from);
    if ok {
      AllFromBefore(h.env, begun, h.w.tick);
    } else {
      Discard(h, path, dst, tmpFile.value, m1, from, content);
    }
  }

  lemma AllFromBefore(env: Env, from: nat, to: nat)
    requires FourCalls(env, from) && AllButOne(env, from + 4, to)
    ensures AllButOne(env, from, to)
  {
    var s: nat :| AllBut(env, from + 4, to, s);
    assert AllBut(env, from, to, s);
  }

  lemma DirsReadySelf(m0: Tree, m1: Tree, dst: Path)
    requires DirsReady(m0, m1, dst)
    ensures DirsReady(m1, m1, dst) && Get(m1, dst) == Get(m0, dst)
  {
  }

  lemma PreparedUntouched(m0: Tree, m: Tree, dst: Path)
    requires DirsReady(m0, m, dst)
    ensures Untouched(m0, m, dst) && NoLitter(m0, m, dst)
  {
  }

  lemma TempIsLitter(m0: Tree, m: Tree, dst: Path, tmp: Path)
    requires WithTemp(m0, m, dst, tmp)
    ensures Untouched(m0, m, dst) && !NoLitter(m0, m, dst)
  {
    assert dst in m ==> dst in m0;
    assert !(tmp <= dst);
  }

  // ------------------------------------------------------------------ bzip2

  /** The limit on a decoded stream: the smaller of the two size limits. */
  function DecodeLimit(options: Options): Int64 {
    Min(Effective(options).maxEntry, Effective(options).maxTotal)
  }

  /** What a bzip2 run may store: the whole decoded stream, if it can be decoded and the budget
      affords it. */
  function Decoded(decoded: Stream, limit: int): Option<Bytes> {
    if !decoded.broken && Spend(Lengths(decoded.pieces), 0, limit).ok then Some(Flat(decoded.pieces)) else None
  }

  /** The budget affords a stream exactly when its length is within the limit, if the limit
      leaves room for one piece or the length is within 64 bits. */
  lemma DecodedIff(decoded: Stream, limit: int, c: nat)
    requires 0 <= limit
    requires (limit + c <= MAX_INT64 && Chunked(decoded.pieces, c)) || Total(decoded.pieces) <= MAX_INT64
    ensures Decoded(decoded, limit) ==
      if !decoded.broken && Total(decoded.pieces) <= limit then Some(Flat(decoded.pieces)) else None
  {
    SpendTotal(decoded.pieces, 0, limit, c);
  }

  /** In terms of the options: neither size limit is ignored. */
  lemma DecodedByOptions(decoded: Stream, options: Options)
    ensures Total(decoded.pieces) <= MAX_INT64 ==>
      (Decoded(decoded, DecodeLimit(options)).Some? <==>
        && !decoded.broken
        && Allows(options.maxEntrySize, 524288000, Total(decoded.pieces))
        && Allows(options.maxTotalSize, 1073741824, Total(decoded.pieces)))
  {
    hide Spend, Total;
    if Total(decoded.pieces) <= MAX_INT64 {
      DecodedIff(decoded, DecodeLimit(options), 0);
    }
  }

  /** Bzip2Expander.Expand, once the input is open: the decoded stream, bounded by the smaller of
      the two size limits, goes to dst/baseName with the same all-or-nothing promise. */
  method Expand(h: Host, dstDir: Path, baseName: string, ghost fplace: Path, decoded: Stream, umask: nat,
                options: Options)
    returns (ok: bool)
    requires WF(h.w.nodes) && NamesTarget(h.env, h.w.nodes, dstDir + [baseName], fplace) && OwnName(h.env, fplace)
    modifies h
    ensures AlwaysAtomic(h.history, |old(h.history)|, old(h.w.nodes), fplace, Decoded(decoded, DecodeLimit(options)))
    ensures ok ==> Decoded(decoded, DecodeLimit(options)).Some?
    ensures ok ==> Replaced(old(h.w.nodes), h.w.nodes, fplace, Flat(decoded.pieces))
    ensures ok ==> h.w.nodes[fplace].perm == 420
    ensures !ok ==> Untouched(old(h.w.nodes), h.w.nodes, fplace) && NoLitter(old(h.w.nodes), h.w.nodes, fplace)
    ensures NewDirs(old(h.w.nodes), h.w.nodes, fplace, h.env.masked(umask))
    ensures var made := MkdirAll(h.env, old(h.w), dstDir, umask);
      var n := Writes(decoded.pieces) + 4;
      ok ==> made.ok && h.w.tick == made.w.tick + n && NoneFails(h.env, made.w.tick, n)
    ensures NoFault(h.env) && Total(decoded.pieces) <= MAX_INT64 ==>
      (ok <==> && DirsOnWay(old(h.w.nodes), Parent(fplace)) && !IsDir(old(h.w.nodes), fplace) && !decoded.broken
               && Allows(options.maxEntrySize, 524288000, Total(decoded.pieces))
               && Allows(options.maxTotalSize, 1073741824, Total(decoded.pieces)))
    ensures NoFault(h.env) ==>
      (ok <==> && DirsOnWay(old(h.w.nodes), Parent(fplace)) && !IsDir(old(h.w.nodes), fplace)
               && Decoded(decoded, DecodeLimit(options)).Some?)
  {
    hide Walk, Atomic, AlwaysAtomic, WithTemp, DirsReady, MkdirAll, OwnName, Replaced, Leads, Os.CreateTemp;
    hide DecodeLimit, Spend, Decoded, Allows, NoneFails;
    DecodedByOptions(decoded, options);
    var fpath := dstDir + [baseName];
    assert Parent(fpath) == dstDir;
    ghost var m0, start, content := h.w.nodes, |h.history|, Decoded(decoded, DecodeLimit(options));
    NothingYet(h.history, m0, fplace, content);
    DirsPrepared(h.env, h.w, fpath, fplace, umask);
    ghost var before := h.history;
    ok := h.MkdirAll(dstDir, umask);
    PreparedAtomic(m0, h.w.nodes, fplace, content);
    AtomicStep(before, h.w, start, m0, fplace, content);
    if !ok {
      PreparedUntouched(m0, h.w.nodes, fplace);
      return;
    }
    before := h.history;
    ghost var m1 := h.w.nodes;
    DirsReadySelf(m0, m1, fplace);
    ok := ExpandReady(h, fpath, fplace, decoded, options);
    if ok {
      ReplacedSince(m0, m1, h.w.nodes, fplace, Flat(decoded.pieces), h.env.masked(umask));
    } else {
      UntouchedSince(m0, m1, h.w.nodes, fplace, h.env.masked(umask));
    }
    HistorySince(before, h.history, start, m0, m1, fplace, content);
  }

  /** Expand, once its directory is there. */
  method ExpandReady(h: Host, fpath: Path, ghost fplace: Path, decoded: Stream, options: Options) returns (ok: bool)
    requires DirsReady(h.w.nodes, h.w.nodes, fplace) && OwnName(h.env, fplace)
    requires Leads(h.env, h.w.nodes, fpath, fplace)
    modifies h
    ensures old(h.history) <= h.history
    ensures AlwaysAtomic(h.history, |old(h.history)|, old(h.w.nodes), fplace, Decoded(decoded, DecodeLimit(options)))
    ensures ok ==> Decoded(decoded, DecodeLimit(options)).Some?
    ensures ok ==> Replaced(old(h.w.nodes), h.w.nodes, fplace, Flat(decoded.pieces))
    ensures ok ==> h.w.nodes[fplace].perm == 420
    ensures !ok ==> Untouched(old(h.w.nodes), h.w.nodes, fplace) && NoLitter(old(h.w.nodes), h.w.nodes, fplace)
    ensures var n := Writes(decoded.pieces) + 4;
      ok ==> h.w.tick == old(h.w.tick) + n && NoneFails(h.env, old(h.w.tick), n)
    ensures NoFault(h.env) ==>
      (ok <==> !IsDir(old(h.w.nodes), fplace) && Decoded(decoded, DecodeLimit(options)).Some?)
  {
    hide Walk, Atomic, AlwaysAtomic, WithTemp, DirsReady, OwnName, Replaced, Leads, Os.CreateTemp;
    hide DecodeLimit, Spend, Decoded, NoneFails;
    ghost var m1, from, content := h.w.nodes, |h.history|, Decoded(decoded, DecodeLimit(options));
    ghost var made := h.w.tick;
    TargetNamed(h.env, m1, fpath, fplace);
    NothingYet(h.history, m1, fplace, content);
    TempMade(h.env, m1, h.w, fpath, fplace);
    ghost var before := h.history;
    var tmp := h.CreateTemp(Parent(fpath));
    if tmp.None? {
      PreparedAtomic(m1, h.w.nodes, fplace, content);
      PreparedUntouched(m1, h.w.nodes, fplace);
      AtomicStep(before, h.w, from, m1, fplace, content);
      return false;
    }
    WithTempAtomic(m1, h.w.nodes, fplace, tmp.value, content);
    AtomicStep(before, h.w, from, m1, fplace, content);
    ok := Decode(h, fpath, fplace, tmp.value, decoded, options, m1, from);
    if ok {
      NoneJoin(h.env, made, 1, Writes(decoded.pieces) + 3);
    } else {
      Discard(h, fpath, fplace, tmp.value, m1, from, content);
    }
  }

  /** Expand, from the temporary file on. */
  method Decode(h: Host, fpath: Path, ghost fplace: Path, tmp: Path, decoded: Stream, options: Options,
                ghost m0: Tree, ghost start: nat)
    returns (ok: bool)
    requires WithTemp(m0, h.w.nodes, fplace, tmp) && h.w.nodes[tmp].data == [] && Leads(h.env, h.w.nodes, fpath, fplace)
    requires start <= |h.history| && AlwaysAtomic(h.history, start, m0, fplace, Decoded(decoded, DecodeLimit(options)))
    modifies h
    ensures if ok then Replaced(m0, h.w.nodes, fplace, Flat(decoded.pieces)) else WithTemp(m0, h.w.nodes, fplace, tmp)
    ensures !ok ==> Leads(h.env, h.w.nodes, fpath, fplace)
    ensures ok ==> h.w.nodes[fplace].perm == 420 && Decoded(decoded, DecodeLimit(options)).Some?
    ensures var n := Writes(decoded.pieces) + 3;
      ok ==> h.w.tick == old(h.w.tick) + n && NoneFails(h.env, old(h.w.tick), n)
    ensures NoFault(h.env) ==> (ok <==> Decoded(decoded, DecodeLimit(options)).Some? && !IsDir(m0, fplace))
    ensures old(h.history) <= h.history
    ensures AlwaysAtomic(h.history, start, m0, fplace, Decoded(decoded, DecodeLimit(options)))
  {
    hide Walk, Atomic, AlwaysAtomic, WithTemp, Replaced, Sibling, Flat, Total, Feed, Spend, Leads;
    var limits := Effective(options);
    var limit := Min(limits.maxEntry, limits.maxTotal);
    assert limit == DecodeLimit(options);
    ghost var content := Decoded(decoded, limit);
    var copied := new Counter();
    ghost var m, from, w := h.w.nodes, |h.history|, h.w;
    TempIsFile(m0, m, fplace, tmp);
    FeedNodes(h.env, w, tmp, decoded.pieces, 0, limit);
    FeedSpends(h.env, w, tmp, decoded.pieces, 0, limit);
    FeedFaults(h.env, w, tmp, decoded.pieces, 0, limit);
    ghost var landed;
    ok, landed := ArchiveHost.CopyBounded(h, tmp, decoded, copied, limit);
    assert [] + Flat(decoded.pieces) == Flat(decoded.pieces);
    WithTempSet(m0, m, fplace, tmp, h.w.nodes[tmp]);
    TempLeads(h.env, m0, m, h.w.nodes, fpath, fplace, tmp);
    assert h.history[..from] == old(h.history);
    CopyHistory(h.history, start, from, m0, m, fplace, tmp, content);
    if !ok {
      return;
    }
    assert content == Some(h.w.nodes[tmp].data);
    ok := CloseTemp(h, fplace, tmp, m0, start, content);
    if !ok {
      return;
    }
    ok := SetMode(h, fpath, fplace, tmp, 420, m0, start, content);  // 0644
    if !ok {
      return;
    }
    ok := MoveIntoPlace(h, fpath, fplace, tmp, m0, start, content);
  }

  method SetMode(h: Host, path: Path, ghost dst: Path, tmp: Path, perm: nat, ghost m0: Tree, ghost start: nat,
                 ghost content: Option<Bytes>)
    returns (ok: bool)
    requires WithTemp(m0, h.w.nodes, dst, tmp) && Leads(h.env, h.w.nodes, path, dst)
    requires start <= |h.history| && AlwaysAtomic(h.history, start, m0, dst, content)
    modifies h
    ensures WithTemp(m0, h.w.nodes, dst, tmp) && h.w.nodes[tmp].data == old(h.w.nodes[tmp].data)
    ensures Leads(h.env, h.w.nodes, path, dst)
    ensures ok ==> h.w.nodes[tmp].perm == perm
    ensures h.w.tick == old(h.w.tick) + 1 && (ok ==> !h.env.fault(old(h.w.tick)))
    ensures NoFault(h.env) ==> ok
    ensures old(h.history) <= h.history && AlwaysAtomic(h.history, start, m0, dst, content)
  {
    hide Walk, Atomic, AlwaysAtomic, Leads, Os.Chmod;
    TargetNamed(h.env, h.w.nodes, path, dst);
    ghost var before := h.history;
    TempMode(h.env, m0, h.w, path, dst, tmp, perm);
    ok := h.Chmod(Beside(path, tmp), perm);
    WithTempAtomic(m0, h.w.nodes, dst, tmp, content);
    AtomicStep(before, h.w, start, m0, dst, content);
  }

  /** On a response of truthful or unknown length, the limit of the download accepts exactly what
      the bounded copy of the expanders accepts, for every positive limit. */
  lemma SameAcceptance(body: Stream, contentLength: Int64, max: Int64)
    requires 0 < max && Total(body.pieces) <= MAX_INT64
    requires contentLength == Total(body.pieces) || contentLength == -1
    ensures WithinLimit(contentLength, Total(body.pieces), max) <==> Spend(Lengths(body.pieces), 0, max).ok
  {
    SpendTotal(body.pieces, 0, max, 0);
  }
}
