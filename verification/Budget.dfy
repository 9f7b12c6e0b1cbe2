/**
  expand/expander.go: the limits of an extraction and the running byte budget that limitWriter
  and CopyBounded enforce, in 64-bit arithmetic.
 */
module Budget {
  import opened Paths
  import opened Os

  const MAX_INT64: int := 0x7fff_ffff_ffff_ffff
  const DEFAULT_MAX_ENTRY_SIZE: int := 500 * 1024 * 1024
  const DEFAULT_MAX_TOTAL_SIZE: int := 1024 * 1024 * 1024
  const DEFAULT_FILES_LIMIT: int := 10000

  /** Two's complement: the value of a 64-bit addition. */
  function Wrap(x: int): (r: int)
    ensures -MAX_INT64 - 1 <= r <= MAX_INT64
    ensures -MAX_INT64 - 1 <= x <= MAX_INT64 ==> r == x
    ensures MAX_INT64 < x <= 2 * MAX_INT64 + 1 ==> r < 0
  {
    (x + MAX_INT64 + 1) % (2 * MAX_INT64 + 2) - MAX_INT64 - 1
  }

  type Int64 = x: int | -MAX_INT64 - 1 <= x <= MAX_INT64

  datatype Options = Options(maxEntrySize: Int64, maxTotalSize: Int64, filesLimit: Int64)
  datatype Limits = Limits(maxEntry: Int64, maxTotal: Int64, files: Int64)

  function EffectiveSize(v: Int64, def: Int64): Int64 {
    if v < 0 then MAX_INT64 else if v == 0 then def else v
  }

  /** Negative values disable a limit, zero stands for 500 MiB, 1 GiB and 10000, a positive value
      is the limit. */
  function Effective(o: Options): (l: Limits)
    ensures o.maxEntrySize > 0 ==> l.maxEntry == o.maxEntrySize
    ensures o.maxTotalSize > 0 ==> l.maxTotal == o.maxTotalSize
    ensures o.filesLimit > 0 ==> l.files == o.filesLimit
    ensures o.maxEntrySize == 0 ==> l.maxEntry == 524288000
    ensures o.maxTotalSize == 0 ==> l.maxTotal == 1073741824
    ensures o.filesLimit == 0 ==> l.files == 10000
    ensures o.maxEntrySize < 0 ==> l.maxEntry == 0x7fff_ffff_ffff_ffff
    ensures o.maxTotalSize < 0 ==> l.maxTotal == 0x7fff_ffff_ffff_ffff
    ensures o.filesLimit < 0 ==> l.files == 0x7fff_ffff_ffff_ffff
  {
    Limits(EffectiveSize(o.maxEntrySize, DEFAULT_MAX_ENTRY_SIZE),
           EffectiveSize(o.maxTotalSize, DEFAULT_MAX_TOTAL_SIZE),
           EffectiveSize(o.filesLimit, DEFAULT_FILES_LIMIT))
  }

  /** What a configured limit promises: n is within it. */
  predicate Allows(configured: Int64, default: int, n: int) {
    if configured < 0 then n <= 0x7fff_ffff_ffff_ffff
    else if configured == 0 then n <= default
    else n <= configured
  }

  // ------------------------------------------------------------------ the budget, in numbers

  datatype Spent = Spent(counter: int, ok: bool)

  /** The lengths of successive writes against a limit, as limitWriter adds them up. */
  function Spend(lens: seq<nat>, counter: int, max: int): Spent {
    if lens == [] then Spent(counter, true)
    else
      var c := Wrap(counter + lens[0]);
      if c > max then Spent(c, false) else Spend(lens[1..], c, max)
  }

  /** The same without a bound on integers. */
  function SpendExact(lens: seq<nat>, counter: int, max: int): Spent {
    if lens == [] then Spent(counter, true)
    else
      var c := counter + lens[0];
      if c > max then Spent(c, false) else SpendExact(lens[1..], c, max)
  }

  function Sum(lens: seq<nat>): nat {
    if lens == [] then 0 else lens[0] + Sum(lens[1..])
  }

  predicate Pieces(lens: seq<nat>, c: nat) {
    forall i :: 0 <= i < |lens| ==> lens[i] <= c
  }

  lemma {:induction false} ExactBySum(lens: seq<nat>, counter: int, max: int)
    requires counter <= max
    ensures SpendExact(lens, counter, max).ok <==> counter + Sum(lens) <= max
    ensures SpendExact(lens, counter, max).ok ==> SpendExact(lens, counter, max).counter == counter + Sum(lens)
  {
    if lens != [] && counter + lens[0] <= max {
      ExactBySum(lens[1..], counter + lens[0], max);
    }
  }

  /** Nothing wraps if the limit leaves room for one piece, or if everything together is within
      64 bits. */
  lemma {:induction false} NoWrap(lens: seq<nat>, counter: int, max: int, c: nat)
    requires 0 <= counter <= max
    requires (max + c <= MAX_INT64 && Pieces(lens, c)) || counter + Sum(lens) <= MAX_INT64
    ensures Spend(lens, counter, max) == SpendExact(lens, counter, max)
  {
    if lens != [] && counter + lens[0] <= max {
      NoWrap(lens[1..], counter + lens[0], max, c);
    }
  }

  /** What may be spent from: a running total within the limit, in 64-bit integers. */
  predicate Running(counter: int, max: int) {
    -MAX_INT64 - 1 <= counter <= max <= MAX_INT64
  }

  lemma {:induction false} SpendRuns(lens: seq<nat>, counter: int, max: int)
    requires Running(counter, max) && Spend(lens, counter, max).ok
    ensures Running(Spend(lens, counter, max).counter, max)
  {
    if lens != [] {
      SpendRuns(lens[1..], Wrap(counter + lens[0]), max);
    }
  }

  predicate SpendAlike(lens: seq<nat>, counter: int, max: int) {
    Spend(lens, counter, max) == SpendExact(lens, counter, max)
  }

  /** The 64-bit budget is the unbounded one, on every stream of pieces of at most c bytes and
      from every running total, exactly when the limit leaves room for one piece: with the buffers
      of 32 KiB that the expanders use, up to 2^63 - 1 - 32768. */
  lemma NoWrapIff(max: int, c: nat)
    requires 0 <= max <= MAX_INT64 && 1 <= c <= MAX_INT64
    ensures max + c <= MAX_INT64 <==>
      forall lens: seq<nat>, counter: int :: 0 <= counter <= max && Pieces(lens, c) ==>
        SpendAlike(lens, counter, max)
  {
    if max + c <= MAX_INT64 {
      forall lens: seq<nat>, counter: int | 0 <= counter <= max && Pieces(lens, c)
        ensures SpendAlike(lens, counter, max)
      {
        NoWrap(lens, counter, max, c);
      }
    } else {
      var lens: seq<nat> := [c];
      assert Pieces(lens, c);
      assert Wrap(max + c) < 0 && lens[1..] == [];
      assert Spend(lens, max, max) == Spent(Wrap(max + c), true);
      assert SpendExact(lens, max, max) == Spent(max + c, false);
      assert !SpendAlike(lens, max, max);
    }
  }

  /** A limit configured as negative is never exceeded, by any stream, wrapped or not. */
  lemma {:induction false} DisabledNeverRejects(lens: seq<nat>, counter: int, configured: Int64, def: Int64)
    requires configured < 0
    ensures Spend(lens, counter, EffectiveSize(configured, def)).ok
  {
    if lens != [] {
      DisabledNeverRejects(lens[1..], Wrap(counter + lens[0]), configured, def);
    }
  }

  // ------------------------------------------------------------------ the budget, in bytes

  /** What a reader delivers: pieces, and then the end or an error. */
  datatype Stream = Stream(pieces: seq<Bytes>, broken: bool)

  function Lengths(pieces: seq<Bytes>): seq<nat> {
    if pieces == [] then [] else [|pieces[0]|] + Lengths(pieces[1..])
  }

  function Total(pieces: seq<Bytes>): nat {
    if pieces == [] then 0 else |pieces[0]| + Total(pieces[1..])
  }

  function Flat(pieces: seq<Bytes>): Bytes {
    if pieces == [] then [] else pieces[0] + Flat(pieces[1..])
  }

  predicate Chunked(pieces: seq<Bytes>, c: nat) {
    forall i :: 0 <= i < |pieces| ==> |pieces[i]| <= c
  }

  lemma {:induction false} FlatTotal(pieces: seq<Bytes>)
    ensures |Flat(pieces)| == Total(pieces)
  {
    if pieces != [] {
      FlatTotal(pieces[1..]);
    }
  }

  /** The state after a bounded copy: the running total, and the bytes that reached the file. */
  datatype Fed = Fed(w: World, counter: int, landed: nat, ok: bool)

  /** io.CopyBuffer into a limitWriter over the open file q. */
  function Feed(env: Env, w: World, q: Path, pieces: seq<Bytes>, counter: int, max: int): Fed
    decreases |pieces|
  {
    if pieces == [] then Fed(w, counter, 0, true)
    else if pieces[0] == [] then Feed(env, w, q, pieces[1..], counter, max)
    else
      var c := Wrap(counter + |pieces[0]|);
      if c > max then Fed(w, c, 0, false)
      else
        var r := Write(env, w, q, pieces[0]);
        if !r.ok then Fed(r.w, c, Min(env.partial(w.tick), |pieces[0]|), false)
        else
          var s := Feed(env, r.w, q, pieces[1..], c, max);
          s.(landed := s.landed + |pieces[0]|)
  }

  function CopyBounded(env: Env, w: World, q: Path, src: Stream, counter: int, max: int): Fed {
    var r := Feed(env, w, q, src.pieces, counter, max);
    r.(ok := r.ok && !src.broken)
  }

  /** The counter cannot wrap: the limit leaves room for one piece of at most c bytes, or
      everything that is still to come is within 64 bits. */
  predicate Fits(counter: int, max: int, c: nat, total: nat) {
    0 <= counter <= max && (max + c <= MAX_INT64 || counter + total <= MAX_INT64)
  }

  /** What a bounded copy of `pieces` into q does. */
  ghost predicate FeedSpec(env: Env, m: Tree, q: Path, pieces: seq<Bytes>, counter: int, max: int, c: nat, r: Fed)
    requires q in m && m[q].File?
  {
    && q in r.w.nodes && r.w.nodes[q].File? && r.w.nodes[q].perm == m[q].perm
    && r.w.nodes == m[q := r.w.nodes[q]]
    && |r.w.nodes[q].data| == |m[q].data| + r.landed
    && counter + r.landed <= max
    && counter + r.landed <= r.counter <= counter + r.landed + c
    && (r.ok ==> r.w.nodes[q].data == m[q].data + Flat(pieces))
    && (r.ok ==> r.counter == counter + Total(pieces) == counter + r.landed)
    && (NoFault(env) ==> (r.ok <==> counter + Total(pieces) <= max))
  }

  /** A bounded copy changes the one file, by appending; what reaches it never exceeds what was
      left of the budget; the counter runs ahead of it by at most one piece, and not at all on
      success; a fault-free copy succeeds exactly when all bytes fit, however they come in
      pieces. */
  lemma {:induction false} FeedEffect(env: Env, w: World, q: Path, pieces: seq<Bytes>, counter: int, max: int, c: nat)
    requires q != [] && q in w.nodes && w.nodes[q].File?
    requires Fits(counter, max, c, Total(pieces)) && Chunked(pieces, c)
    ensures FeedSpec(env, w.nodes, q, pieces, counter, max, c, Feed(env, w, q, pieces, counter, max))
    decreases |pieces|
  {
    hide Write, Put;
    if pieces == [] {
      assert w.nodes[q].data + [] == w.nodes[q].data;
    } else if pieces[0] == [] {
      FeedEffect(env, w, q, pieces[1..], counter, max, c);
      assert pieces[0] + Flat(pieces[1..]) == Flat(pieces[1..]);
    } else if counter + |pieces[0]| <= max {
      WriteEffect(env, w, q, pieces[0]);
      var r := Write(env, w, q, pieces[0]);
      if r.ok {
        var next := counter + |pieces[0]|;
        FeedEffect(env, r.w, q, pieces[1..], next, max, c);
        FeedMore(env, w.nodes, r.w.nodes, q, pieces, counter, max, c, Feed(env, r.w, q, pieces[1..], next, max));
      } else {
        FeedTorn(env, w, q, pieces, counter, max, c);
      }
    }
  }

  /** In any case, and whatever the limit, nothing but the contents of the file changes, and on
      success it has received every byte. */
  lemma {:induction false} FeedNodes(env: Env, w: World, q: Path, pieces: seq<Bytes>, counter: int, max: int)
    requires q != [] && q in w.nodes && w.nodes[q].File?
    ensures var r := Feed(env, w, q, pieces, counter, max);
      && q in r.w.nodes && r.w.nodes[q].File? && r.w.nodes == w.nodes[q := r.w.nodes[q]]
      && r.w.nodes[q].perm == w.nodes[q].perm
      && (r.ok ==> r.w.nodes[q].data == w.nodes[q].data + Flat(pieces))
    decreases |pieces|
  {
    hide Write, Put, Wrap;
    if pieces == [] {
      assert w.nodes[q].data + [] == w.nodes[q].data;
    } else {
      if pieces[0] == [] {
        FeedNodes(env, w, q, pieces[1..], counter, max);
        assert pieces[0] + Flat(pieces[1..]) == Flat(pieces[1..]);
      } else {
        var c := Wrap(counter + |pieces[0]|);
        WriteEffect(env, w, q, pieces[0]);
        var r := Write(env, w, q, pieces[0]);
        if c <= max && r.ok {
          FeedNodes(env, r.w, q, pieces[1..], c, max);
          var s := Feed(env, r.w, q, pieces[1..], c, max);
          assert w.nodes[q := r.w.nodes[q]][q := s.w.nodes[q]] == w.nodes[q := s.w.nodes[q]];
          assert w.nodes[q].data + pieces[0] + Flat(pieces[1..]) == w.nodes[q].data + Flat(pieces);
        }
      }
    }
  }

  /** The bytes that the budget lets through. */
  function Afford(pieces: seq<Bytes>, counter: int, max: int): Bytes {
    if pieces == [] then []
    else if pieces[0] == [] then Afford(pieces[1..], counter, max)
    else
      var c := Wrap(counter + |pieces[0]|);
      if c > max then [] else pieces[0] + Afford(pieces[1..], c, max)
  }

  /** Fault-free these bytes reach the file, whether the copy succeeds or not. */
  lemma {:induction false} FeedAffords(env: Env, w: World, q: Path, pieces: seq<Bytes>, counter: int, max: int)
    requires NoFault(env) && q != [] && q in w.nodes && w.nodes[q].File?
    ensures var r := Feed(env, w, q, pieces, counter, max);
      && q in r.w.nodes && r.w.nodes[q] == File(w.nodes[q].data + Afford(pieces, counter, max), w.nodes[q].perm)
      && (r.ok ==> Afford(pieces, counter, max) == Flat(pieces))
    decreases |pieces|
  {
    if pieces == [] {
      assert w.nodes[q].data + [] == w.nodes[q].data;
    } else if pieces[0] == [] {
      FeedAffords(env, w, q, pieces[1..], counter, max);
      assert pieces[0] + Flat(pieces[1..]) == Flat(pieces[1..]);
    } else {
      var c := Wrap(counter + |pieces[0]|);
      WriteEffect(env, w, q, pieces[0]);
      if c <= max {
        FeedAffords(env, Write(env, w, q, pieces[0]).w, q, pieces[1..], c, max);
        var more := Afford(pieces[1..], c, max);
        assert w.nodes[q].data + pieces[0] + more == w.nodes[q].data + (pieces[0] + more);
      } else {
        assert w.nodes[q].data + [] == w.nodes[q].data;
      }
    }
  }

  lemma FeedMore(env: Env, m: Tree, m1: Tree, q: Path, pieces: seq<Bytes>, counter: int, max: int, c: nat, s: Fed)
    requires pieces != [] && q in m && m[q].File? && q in m1 && m1[q] == m[q].(data := m[q].data + pieces[0])
    requires m1 == m[q := m1[q]]
    requires FeedSpec(env, m1, q, pieces[1..], counter + |pieces[0]|, max, c, s)
    ensures FeedSpec(env, m, q, pieces, counter, max, c, s.(landed := s.landed + |pieces[0]|))
  {
    var d := m[q].data;
    assert d + pieces[0] + Flat(pieces[1..]) == d + Flat(pieces);
    assert m[q := m1[q]][q := s.w.nodes[q]] == m[q := s.w.nodes[q]];
  }

  lemma FeedTorn(env: Env, w: World, q: Path, pieces: seq<Bytes>, counter: int, max: int, c: nat)
    requires pieces != [] && q != [] && q in w.nodes && w.nodes[q].File?
    requires Fits(counter, max, c, Total(pieces)) && Chunked(pieces, c) && counter + |pieces[0]| <= max
    requires !Write(env, w, q, pieces[0]).ok
    ensures FeedSpec(env, w.nodes, q, pieces, counter, max, c,
      Fed(Write(env, w, q, pieces[0]).w, counter + |pieces[0]|, Min(env.partial(w.tick), |pieces[0]|), false))
  {
    assert env.fault(w.tick);
  }

  /** The byte loop spends the budget as the arithmetic above says, wrapped or not: on success,
      and fault-free in any case. */
  lemma {:induction false} FeedSpends(env: Env, w: World, q: Path, pieces: seq<Bytes>, counter: int, max: int)
    requires q != [] && q in w.nodes && w.nodes[q].File? && Running(counter, max)
    ensures var r := Feed(env, w, q, pieces, counter, max);
      r.ok || NoFault(env) ==> Spent(r.counter, r.ok) == Spend(Lengths(pieces), counter, max)
    decreases |pieces|
  {
    if pieces != [] {
      assert Lengths(pieces)[1..] == Lengths(pieces[1..]);
      if pieces[0] == [] {
        FeedSpends(env, w, q, pieces[1..], counter, max);
      } else if Wrap(counter + |pieces[0]|) <= max {
        WriteEffect(env, w, q, pieces[0]);
        FeedSpends(env, Write(env, w, q, pieces[0]).w, q, pieces[1..], Wrap(counter + |pieces[0]|), max);
      }
    }
  }

  lemma {:induction false} LengthsSum(pieces: seq<Bytes>)
    ensures Sum(Lengths(pieces)) == Total(pieces)
    ensures forall c: nat :: Chunked(pieces, c) ==> Pieces(Lengths(pieces), c)
  {
    if pieces != [] {
      LengthsSum(pieces[1..]);
      assert Lengths(pieces)[1..] == Lengths(pieces[1..]);
      forall c: nat | Chunked(pieces, c)
        ensures Pieces(Lengths(pieces), c)
      {
        assert Chunked(pieces[1..], c);
        assert Lengths(pieces)[0] <= c;
        forall i | 0 <= i < |Lengths(pieces)|
          ensures Lengths(pieces)[i] <= c
        {
          if i > 0 {
            assert Lengths(pieces)[i] == Lengths(pieces[1..])[i - 1];
          }
        }
      }
    }
  }

  /** A stream is accepted exactly when its total fits, and then the counter has grown by it, if
      the counter cannot wrap. */
  lemma SpendTotal(pieces: seq<Bytes>, counter: int, max: int, c: nat)
    requires 0 <= counter <= max
    requires (max + c <= MAX_INT64 && Chunked(pieces, c)) || counter + Total(pieces) <= MAX_INT64
    ensures var s := Spend(Lengths(pieces), counter, max);
      && (s.ok <==> counter + Total(pieces) <= max)
      && (s.ok ==> s.counter == counter + Total(pieces))
  {
    LengthsSum(pieces);
    NoWrap(Lengths(pieces), counter, max, c);
    ExactBySum(Lengths(pieces), counter, max);
  }
}
