/** What readers could see in the files after each single write. */
module History {
  import opened Text
  import opened Records
  import opened Images
  import opened Lookups
  import opened LockActs
  import opened Locking

  /** Both files as they stand after one write system call, how long they were before it, and the lock
      calls that the handle had made by then. */
  datatype Snap = Snap(idx: seq<byte>, dat: seq<byte>, idxSize: nat, datSize: nat, log: seq<Act>)

  /** The history grew by one write, which left the files like this. */
  ghost predicate Wrote(before: seq<Snap>, after: seq<Snap>, idx: seq<byte>, dat: seq<byte>) {
    && |after| == |before| + 1 && after[..|before|] == before
    && after[|before|].idx == idx && after[|before|].dat == dat
  }

  /** The write was made while the process had this byte for itself. */
  predicate Owns(log: seq<Act>, f: File, b: nat) {
    LockAt(log, |log|, f, b) == Locked(Exclusive)
  }

  /** Every byte by which the write lengthened a file was locked for this process alone. */
  ghost predicate Careful(s: Snap) {
    && (forall b: nat | s.idxSize <= b < |s.idx| :: Owns(s.log, IdxFd, b))
    && (forall b: nat | s.datSize <= b < |s.dat| :: Owns(s.log, DatFd, b))
  }

  predicate LogIs(s: Snap, l0: seq<Act>, acts: seq<Act>, k: nat) {
    k <= |acts| && s.log == l0 + acts[..k]
  }

  ghost predicate MadeWithin(s: Snap, l0: seq<Act>, acts: seq<Act>) {
    Careful(s) && exists k: nat :: LogIs(s, l0, acts, k)
  }

  /** Every write since before was careful, and was made after these lock calls and some of those. */
  ghost predicate Within(before: seq<Snap>, after: seq<Snap>, l0: seq<Act>, acts: seq<Act>) {
    && |before| <= |after| && after[..|before|] == before
    && forall i | |before| <= i < |after| :: MadeWithin(after[i], l0, acts)
  }

  lemma WithinNone(t: seq<Snap>, l0: seq<Act>, acts: seq<Act>)
    ensures Within(t, t, l0, acts)
  {
  }

  lemma WithinThen(t0: seq<Snap>, t1: seq<Snap>, t2: seq<Snap>, l0: seq<Act>, l1: seq<Act>, a: seq<Act>, b: seq<Act>)
    requires Within(t0, t1, l0, a) && Logs(l0, l1, a) && Within(t1, t2, l1, b)
    ensures Within(t0, t2, l0, a + b)
  {
    hide Careful;
    assert t2[..|t0|] == t2[..|t1|][..|t0|] == t0;
    forall i | |t0| <= i < |t2| ensures MadeWithin(t2[i], l0, a + b) {
      if i < |t1| {
        assert t2[i] == t2[..|t1|][i] == t1[i];
        var k: nat :| LogIs(t1[i], l0, a, k);
        LogEarlier(t1[i], l0, a, b, k);
      } else {
        var k: nat :| LogIs(t2[i], l1, b, k);
        LogLater(t2[i], l0, a, b, k);
      }
    }
  }

  lemma LogEarlier(s: Snap, l0: seq<Act>, a: seq<Act>, b: seq<Act>, k: nat)
    requires LogIs(s, l0, a, k)
    ensures LogIs(s, l0, a + b, k)
  {
    assert (a + b)[..k] == a[..k];
  }

  lemma LogLater(s: Snap, l0: seq<Act>, a: seq<Act>, b: seq<Act>, k: nat)
    requires LogIs(s, l0 + a, b, k)
    ensures LogIs(s, l0, a + b, |a| + k)
  {
    assert (a + b)[..|a| + k] == a + b[..k];
    assert l0 + a + b[..k] == l0 + (a + b[..k]);
  }

  /** Fewer calls are a beginning of more. */
  lemma WithinMore(t0: seq<Snap>, t1: seq<Snap>, l0: seq<Act>, a: seq<Act>, b: seq<Act>)
    requires Within(t0, t1, l0, a)
    ensures Within(t0, t1, l0, a + b)
  {
    WithinNone(t1, l0 + a, b);
    WithinThen(t0, t1, t1, l0, l0 + a, a, b);
  }

  lemma WithinFirst(t0: seq<Snap>, t1: seq<Snap>, l: seq<Act>, more: seq<Act>)
    requires Within(t0, t1, l, [])
    ensures Within(t0, t1, l, more)
  {
    WithinMore(t0, t1, l, [], more);
    assert [] + more == more;
  }

  /** A write with no lock calls of its own comes last. */
  lemma WithinLast(t0: seq<Snap>, t1: seq<Snap>, t2: seq<Snap>, l0: seq<Act>, l1: seq<Act>, a: seq<Act>)
    requires Within(t0, t1, l0, a) && Logs(l0, l1, a) && Within(t1, t2, l1, [])
    ensures Within(t0, t2, l0, a)
  {
    WithinThen(t0, t1, t2, l0, l1, a, []);
    assert a + [] == a;
  }

  /** With no lock calls in between. */
  lemma WithinStill(t0: seq<Snap>, t1: seq<Snap>, t2: seq<Snap>, l: seq<Act>)
    requires Within(t0, t1, l, []) && Within(t1, t2, l, [])
    ensures Within(t0, t2, l, [])
  {
    LogsNone(l);
    var none: seq<Act> := [];
    assert none + none == none;
    WithinThen(t0, t1, t2, l, l, none, none);
  }

  /** Every write since before was careful, and was made while the process had this byte for itself. */
  ghost predicate Guarded(before: seq<Snap>, after: seq<Snap>, b: nat) {
    && |before| <= |after| && after[..|before|] == before
    && forall i | |before| <= i < |after| :: Careful(after[i]) && Owns(after[i].log, IdxFd, b)
  }

  /** The same for the first n writes since before. */
  ghost predicate GuardedFirst(before: seq<Snap>, after: seq<Snap>, n: nat, b: nat) {
    |before| + n <= |after| && Guarded(before, after[..|before| + n], b)
  }

  lemma GuardedWithin(before: seq<Snap>, after: seq<Snap>, l0: seq<Act>, acts: seq<Act>, b: nat)
    requires Within(before, after, l0, acts) && Owns(l0, IdxFd, b)
    requires forall i | 0 <= i < |acts| :: !Covers(acts[i], IdxFd, b)
    ensures Guarded(before, after, b)
  {
    hide Careful, Covers;
    forall i | |before| <= i < |after| ensures Careful(after[i]) && Owns(after[i].log, IdxFd, b) {
      assert MadeWithin(after[i], l0, acts);
      var k: nat :| LogIs(after[i], l0, acts, k);
      StillOwns(l0, acts[..k], b);
    }
  }

  /** Under the chain lock of an operation, whatever it does there. */
  lemma UnderChainLock(before: seq<Snap>, after: seq<Snap>, l0: seq<Act>, l1: seq<Act>, h: nat, inner: seq<Act>)
    requires h < NHASH && Logs(l0, l1, ChainLock(ChainAt(h), Exclusive)) && IsInner(inner)
    requires Within(before, after, l1, inner)
    ensures Guarded(before, after, ChainAt(h))
  {
    hide Within, Guarded, Owns, IsInner;
    InnerIsQuiet(inner);
    JustTaken(l0, Acquire(IdxFd, ChainAt(h), 1, Exclusive), IdxFd, ChainAt(h));
    forall i | 0 <= i < |inner| ensures !Covers(inner[i], IdxFd, ChainAt(h)) {
      assert ChainByte(IdxFd, ChainAt(h));
    }
    GuardedWithin(before, after, l1, inner, ChainAt(h));
  }

  lemma {:induction false} StillOwns(l0: seq<Act>, acts: seq<Act>, b: nat)
    requires Owns(l0, IdxFd, b) && forall i | 0 <= i < |acts| :: !Covers(acts[i], IdxFd, b)
    ensures Owns(l0 + acts, IdxFd, b)
  {
    hide Covers;
    if |acts| == 0 {
      assert l0 + acts == l0;
    } else {
      var n, all := |acts| - 1, l0 + acts;
      StillOwns(l0, acts[..n], b);
      assert all[|all| - 1] == acts[n];
      assert all == (l0 + acts[..n]) + [acts[n]];
      LockPrefix(l0 + acts[..n], [acts[n]], |l0| + n, IdxFd, b);
    }
  }

  /** The lock last taken is owned. */
  lemma JustTaken(l: seq<Act>, act: Act, f: File, b: nat)
    requires act.Acquire? && act.mode == Exclusive && Covers(act, f, b)
    ensures Owns(l + [act], f, b)
  {
    assert (l + [act])[|l|] == act;
  }

  /** One write under one lock: a write that lengthens one file, all of whose new bytes the lock covers. */
  lemma WithinLocked(t: seq<Snap>, t': seq<Snap>, l0: seq<Act>, act: Act, more: seq<Act>)
    requires |t'| == |t| + 1 && t'[..|t|] == t && act.Acquire? && act.mode == Exclusive
    requires t'[|t|].log == l0 + [act]
    requires forall b: nat | t'[|t|].idxSize <= b < |t'[|t|].idx| :: Covers(act, IdxFd, b)
    requires forall b: nat | t'[|t|].datSize <= b < |t'[|t|].dat| :: Covers(act, DatFd, b)
    ensures Within(t, t', l0, [act] + more)
  {
    hide Covers, Owns;
    var s := t'[|t|];
    forall b: nat | s.idxSize <= b < |s.idx| ensures Owns(s.log, IdxFd, b) {
      JustTaken(l0, act, IdxFd, b);
    }
    forall b: nat | s.datSize <= b < |s.dat| ensures Owns(s.log, DatFd, b) {
      JustTaken(l0, act, DatFd, b);
    }
    assert ([act] + more)[..1] == [act];
    assert LogIs(s, l0, [act] + more, 1);
  }

  /** One write in place. */
  lemma WithinPlace(t: seq<Snap>, t': seq<Snap>, l: seq<Act>)
    requires |t'| == |t| + 1 && t'[..|t|] == t && t'[|t|].log == l
    requires |t'[|t|].idx| <= t'[|t|].idxSize && |t'[|t|].dat| <= t'[|t|].datSize
    ensures Within(t, t', l, [])
  {
    assert l + [][..0] == l;
    assert LogIs(t'[|t|], l, [], 0);
  }

  /** Every state since before showed m. */
  ghost predicate ShowedAll(before: seq<Snap>, after: seq<Snap>, m: map<Key, Data>) {
    && |before| <= |after| && after[..|before|] == before
    && forall i | |before| <= i < |after| :: Shows(after[i].idx, after[i].dat, m)
  }

  /** Every state since before showed m until the last write, which made it m'. */
  ghost predicate Switched(before: seq<Snap>, after: seq<Snap>, m: map<Key, Data>, m': map<Key, Data>) {
    && |before| < |after| && after[..|before|] == before
    && (forall i | |before| <= i < |after| - 1 :: Shows(after[i].idx, after[i].dat, m))
    && Shows(after[|after| - 1].idx, after[|after| - 1].dat, m')
  }

  lemma ShowedNone(t: seq<Snap>, m: map<Key, Data>)
    ensures ShowedAll(t, t, m)
  {
  }

  lemma ShowedMore(t0: seq<Snap>, t1: seq<Snap>, t2: seq<Snap>, m: map<Key, Data>, idx: seq<byte>, dat: seq<byte>)
    requires ShowedAll(t0, t1, m) && Wrote(t1, t2, idx, dat) && Shows(idx, dat, m)
    ensures ShowedAll(t0, t2, m)
  {
    hide Shows;
  }

  lemma SwitchesNow(t0: seq<Snap>, t1: seq<Snap>, t2: seq<Snap>, m: map<Key, Data>, m': map<Key, Data>,
                    idx: seq<byte>, dat: seq<byte>)
    requires ShowedAll(t0, t1, m) && Wrote(t1, t2, idx, dat) && Shows(idx, dat, m')
    ensures Switched(t0, t2, m, m')
  {
    hide Shows;
  }

  /** There were exactly n more writes. */
  ghost predicate Extended(before: seq<Snap>, after: seq<Snap>, n: nat) {
    |after| == |before| + n && after[..|before|] == before
  }

  ghost predicate LastShows(t: seq<Snap>, m: map<Key, Data>) {
    |t| > 0 && Shows(t[|t| - 1].idx, t[|t| - 1].dat, m)
  }

  lemma ExtendedMore(t0: seq<Snap>, t1: seq<Snap>, t2: seq<Snap>, n: nat, idx: seq<byte>, dat: seq<byte>)
    requires Extended(t0, t1, n) && Wrote(t1, t2, idx, dat)
    ensures Extended(t0, t2, n + 1)
  {
  }

  lemma FirstGuarded(t0: seq<Snap>, t1: seq<Snap>, t2: seq<Snap>, n: nat, b: nat, l: seq<Act>, a: seq<Act>)
    requires Guarded(t0, t1, b) && Extended(t0, t1, n) && Within(t1, t2, l, a)
    ensures GuardedFirst(t0, t2, n, b)
  {
  }

  lemma LastShown(t1: seq<Snap>, t2: seq<Snap>, m: map<Key, Data>, idx: seq<byte>, dat: seq<byte>)
    requires Wrote(t1, t2, idx, dat) && Shows(idx, dat, m)
    ensures LastShows(t2, m)
  {
    hide Shows;
  }

  /** The chain was whole again after skip writes and showed m from then until the last write, which made it m'. */
  ghost predicate SwitchedAfter(before: seq<Snap>, after: seq<Snap>, skip: nat, m: map<Key, Data>, m': map<Key, Data>) {
    && |before| + skip < |after| && after[..|before|] == before
    && (forall i | |before| + skip <= i < |after| - 1 :: Shows(after[i].idx, after[i].dat, m))
    && Shows(after[|after| - 1].idx, after[|after| - 1].dat, m')
  }

  lemma SwitchedLater(t0: seq<Snap>, t1: seq<Snap>, t2: seq<Snap>, n: nat, m: map<Key, Data>, m': map<Key, Data>)
    requires Extended(t0, t1, n + 1) && LastShows(t1, m) && Switched(t1, t2, m, m')
    ensures SwitchedAfter(t0, t2, n, m, m')
  {
    hide Shows;
    assert t2[|t1| - 1] == t1[|t1| - 1];
    assert t2[..|t0|] == t1[..|t0|];
  }
}
