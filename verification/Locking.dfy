/** Any number of processes interleaving calls of the library, under the advisory record locks of
    fcntl(): a blocking request waits while another process holds a conflicting lock on any of
    its bytes; a release clears the process's own locks on its bytes. */
module Locking {
  import opened Records
  import opened Lookups
  import opened LockActs

  datatype Lock = Unlocked | Locked(mode: Mode)

  predicate Covers(act: Act, f: File, b: nat) {
    act.file == f && act.lo <= b && (act.len == 0 || b < act.lo + act.len)
  }

  /** The lock that a process holds on byte b of file f after the first n acts of its log. */
  function LockAt(log: seq<Act>, n: nat, f: File, b: nat): Lock
    requires n <= |log|
  {
    if n == 0 then Unlocked
    else if Covers(log[n - 1], f, b) then
      if log[n - 1].Acquire? then Locked(log[n - 1].mode) else Unlocked
    else LockAt(log, n - 1, f, b)
  }

  ghost predicate HoldsNothing(log: seq<Act>, n: nat)
    requires n <= |log|
  {
    forall f, b: nat :: LockAt(log, n, f, b) == Unlocked
  }

  // ---- The calls ----

  /** The lock calls of one library call: db_open, db_nextrec, db_fetch, and each way through
      db_delete and db_store. */
  ghost predicate IsCall(call: seq<Act>) {
    || call == OpenActs()
    || call == ScanActs()
    || exists h: nat, mode, inner :: IsChained(call, h, mode, inner)
  }

  /** A call under the lock of a chain: a fetch shares it and locks nothing else, all others have it alone. */
  ghost predicate IsChained(call: seq<Act>, h: nat, mode: Mode, inner: seq<Act>) {
    h < NHASH && IsInner(inner) && (mode == Shared ==> inner == []) && call == Chained(ChainAt(h), mode, inner)
  }

  ghost predicate IsInner(inner: seq<Act>) {
    inner in {[], FreeActs(), ReuseActs(), AppendActs(), MoveActs()}
  }

  /** A byte that holds the head of a hash chain. */
  predicate ChainByte(f: File, b: nat) {
    f == IdxFd && PTR_SZ <= b < (NHASH + 1) * PTR_SZ
  }

  /** Pieces that lock only outside the chain heads, only when they hold nothing, and end holding nothing. */
  ghost predicate Quiet(s: seq<Act>) {
    && (forall i, f, b: nat | 0 <= i < |s| && Covers(s[i], f, b) :: !ChainByte(f, b))
    && (forall i | 0 <= i < |s| && s[i].Acquire? :: HoldsNothing(s, i))
    && HoldsNothing(s, |s|)
  }

  /** A log continued from a point where nothing is held behaves like the continuation alone. */
  lemma {:induction false} LockAfter(a: seq<Act>, s: seq<Act>, i: nat, f: File, b: nat)
    requires i <= |s| && LockAt(a, |a|, f, b) == Unlocked
    ensures LockAt(a + s, |a| + i, f, b) == LockAt(s, i, f, b)
  {
    if i == 0 {
      LockPrefix(a, s, |a|, f, b);
    } else {
      assert (a + s)[|a| + i - 1] == s[i - 1];
      LockAfter(a, s, i - 1, f, b);
    }
  }

  lemma {:induction false} LockPrefix(a: seq<Act>, s: seq<Act>, i: nat, f: File, b: nat)
    requires i <= |a|
    ensures LockAt(a + s, i, f, b) == LockAt(a, i, f, b)
  {
    if i > 0 {
      LockPrefix(a, s, i - 1, f, b);
    }
  }

  lemma HeldAfter(a: seq<Act>, s: seq<Act>, i: nat)
    requires i <= |s| && HoldsNothing(a, |a|)
    ensures HoldsNothing(a + s, |a| + i) <==> HoldsNothing(s, i)
  {
    forall f, b: nat ensures LockAt(a + s, |a| + i, f, b) == LockAt(s, i, f, b) {
      assert LockAt(a, |a|, f, b) == Unlocked;
      LockAfter(a, s, i, f, b);
    }
    if HoldsNothing(s, i) {
      var t, n := a + s, |a| + i;
      forall f, b: nat ensures LockAt(t, n, f, b) == Unlocked {
        assert LockAt(s, i, f, b) == Unlocked;
      }
    }
    if HoldsNothing(a + s, |a| + i) {
      forall f, b: nat ensures LockAt(s, i, f, b) == Unlocked {
        assert LockAt(a + s, |a| + i, f, b) == Unlocked;
      }
    }
  }

  lemma HeldPrefix(a: seq<Act>, s: seq<Act>, i: nat)
    requires i <= |a|
    ensures HoldsNothing(a, i) ==> HoldsNothing(a + s, i)
  {
    forall f, b: nat ensures LockAt(a + s, i, f, b) == LockAt(a, i, f, b) {
      LockPrefix(a, s, i, f, b);
    }
  }

  lemma QuietPair(file: File, lo: nat, len: nat, mode: Mode)
    requires forall f, b: nat | Covers(Release(file, lo, len), f, b) :: !ChainByte(f, b)
    ensures Quiet([Acquire(file, lo, len, mode), Release(file, lo, len)]) && Quiet([Release(file, lo, len)])
  {
    var s, r := [Acquire(file, lo, len, mode), Release(file, lo, len)], [Release(file, lo, len)];
    forall f, b: nat ensures LockAt(s, 0, f, b) == LockAt(s, 2, f, b) == LockAt(r, 1, f, b) == Unlocked {
      assert LockAt(s, 1, f, b) == if Covers(s[0], f, b) then Locked(mode) else LockAt(s, 0, f, b);
      assert LockAt(r, 0, f, b) == Unlocked;
    }
    forall i, f, b: nat | 0 <= i < |s| && Covers(s[i], f, b) ensures !ChainByte(f, b) {
      assert Covers(Release(file, lo, len), f, b);
    }
  }

  lemma QuietConcat(a: seq<Act>, s: seq<Act>)
    requires Quiet(a) && Quiet(s)
    ensures Quiet(a + s)
  {
    var t := a + s;
    hide HoldsNothing;
    forall i, f, b: nat | 0 <= i < |t| && Covers(t[i], f, b) ensures !ChainByte(f, b) {
      assert t[i] == if i < |a| then a[i] else s[i - |a|];
    }
    forall i | 0 <= i < |t| && t[i].Acquire? ensures HoldsNothing(t, i) {
      if i < |a| {
        assert t[i] == a[i];
        HeldPrefix(a, s, i);
      } else {
        assert t[i] == s[i - |a|];
        HeldAfter(a, s, i - |a|);
      }
    }
    HeldAfter(a, s, |s|);
  }

  lemma InnerIsQuiet(inner: seq<Act>)
    requires IsInner(inner)
    ensures Quiet(inner)
  {
    QuietPair(IdxFd, 0, 1, Exclusive);
    QuietPair(DatFd, 0, 0, Exclusive);
    QuietPair(IdxFd, APPEND_OFF, 0, Exclusive);
    QuietConcat(DatAppendActs(), IdxAppendActs());
    QuietConcat(FreeUnlock(), DatAppendActs() + IdxAppendActs());
    QuietConcat(FreeActs(), DatAppendActs() + IdxAppendActs());
    assert HoldsNothing([], 0);
  }

  /** What is true of every call between any two of its acts. */
  ghost predicate Disciplined(s: seq<Act>) {
    && HoldsNothing(s, |s|)
    && forall i {:trigger s[i]} | 0 <= i < |s| && s[i].Acquire? ::
         HoldsNothing(s, i)
         || ((forall f, b: nat | LockAt(s, i, f, b) != Unlocked :: ChainByte(f, b))
             && (forall f, b: nat | Covers(s[i], f, b) :: !ChainByte(f, b)))
  }

  /** Every call requests a chain or whole-file lock only when it holds nothing, requests anything
      else only under at most a chain lock, and returns holding nothing. */
  lemma CallsAreDisciplined(call: seq<Act>)
    requires IsCall(call)
    ensures Disciplined(call)
  {
    if call == OpenActs() {
      PairDisciplined(IdxFd, 0, 0, Exclusive);
    } else if call == ScanActs() {
      PairDisciplined(IdxFd, 0, 1, Shared);
      assert call == [Acquire(IdxFd, 0, 1, Shared), Release(IdxFd, 0, 1)];
    } else {
      var h: nat, mode, inner :| IsChained(call, h, mode, inner);
      InnerIsQuiet(inner);
      ChainedDisciplined(ChainAt(h), mode, inner);
    }
  }

  lemma PairDisciplined(file: File, lo: nat, len: nat, mode: Mode)
    ensures Disciplined([Acquire(file, lo, len, mode), Release(file, lo, len)])
  {
    var s := [Acquire(file, lo, len, mode), Release(file, lo, len)];
    forall f, b: nat ensures LockAt(s, 0, f, b) == LockAt(s, 2, f, b) == Unlocked {
      assert LockAt(s, 1, f, b) == if Covers(s[0], f, b) then Locked(mode) else LockAt(s, 0, f, b);
    }
    assert HoldsNothing(s, 0);
  }

  lemma {:induction false} UnderChain(chain: nat, mode: Mode, inner: seq<Act>, i: nat, f: File, b: nat)
    requires Quiet(inner) && ChainByte(IdxFd, chain) && i <= |inner|
    ensures LockAt(Chained(chain, mode, inner), 1 + i, f, b)
            == if f == IdxFd && b == chain then Locked(mode) else LockAt(inner, i, f, b)
  {
    var s := Chained(chain, mode, inner);
    if i == 0 {
      assert s[0] == Acquire(IdxFd, chain, 1, mode);
      assert LockAt(s, 0, f, b) == Unlocked;
    } else {
      assert s[i] == inner[i - 1];
      UnderChain(chain, mode, inner, i - 1, f, b);
    }
  }

  lemma ChainedDisciplined(chain: nat, mode: Mode, inner: seq<Act>)
    requires Quiet(inner) && ChainByte(IdxFd, chain)
    ensures Disciplined(Chained(chain, mode, inner))
  {
    var s := Chained(chain, mode, inner);
    var n := |inner|;
    forall i | 0 <= i < |s| && s[i].Acquire?
      ensures HoldsNothing(s, i)
              || ((forall f, b: nat | LockAt(s, i, f, b) != Unlocked :: ChainByte(f, b))
                  && (forall f, b: nat | Covers(s[i], f, b) :: !ChainByte(f, b)))
    {
      if i == 0 {
        assert HoldsNothing(s, 0);
      } else {
        assert i <= n && s[i] == inner[i - 1];
        forall f, b: nat | LockAt(s, i, f, b) != Unlocked ensures ChainByte(f, b) {
          UnderChain(chain, mode, inner, i - 1, f, b);
          assert HoldsNothing(inner, i - 1);
        }
      }
    }
    forall f, b: nat ensures LockAt(s, |s|, f, b) == Unlocked {
      UnderChain(chain, mode, inner, n, f, b);
      assert s[n + 1] == Release(IdxFd, chain, 1);
    }
  }

  // ---- The system ----

  /** log[base..] is the call under way, pc of whose acts are done; a dead process holds nothing. */
  datatype Proc = Proc(log: seq<Act>, base: nat, pc: nat, dead: bool)

  type System = seq<Proc>

  predicate InBounds(p: Proc) {
    p.base <= p.pc <= |p.log|
  }

  function Held(p: Proc, f: File, b: nat): Lock {
    if p.dead || !InBounds(p) then Unlocked else LockAt(p.log, p.pc, f, b)
  }

  ghost predicate Conflicts(act: Act, q: Proc) {
    act.Acquire? && exists f, b: nat {:trigger Held(q, f, b)} ::
      Covers(act, f, b) && Held(q, f, b).Locked? && (act.mode == Exclusive || Held(q, f, b).mode == Exclusive)
  }

  predicate Busy(p: Proc) {
    InBounds(p) && !p.dead && p.pc < |p.log|
  }

  /** Process i waits for process k to release something. */
  ghost predicate Waits(s: System, i: nat, k: nat) {
    i < |s| && k < |s| && i != k && Busy(s[i]) && Conflicts(s[i].log[s[i].pc], s[k])
  }

  ghost predicate CanStep(s: System, i: nat) {
    i < |s| && Busy(s[i]) && forall k | 0 <= k < |s| :: !Waits(s, i, k)
  }

  function Stepped(p: Proc): Proc {
    p.(pc := p.pc + 1)
  }

  /** A process does its next lock call, starts a library call when it has none, or dies. */
  ghost predicate Next(s: System, s': System) {
    exists i {:trigger s[i]} | 0 <= i < |s| ::
      || (CanStep(s, i) && s' == s[i := Stepped(s[i])])
      || (exists call :: IsCall(call) && !s[i].dead && s[i].pc == |s[i].log|
                         && s' == s[i := Proc(s[i].log + call, |s[i].log|, |s[i].log|, false)])
      || s' == s[i := s[i].(dead := true)]
  }

  ghost predicate Init(s: System) {
    forall i | 0 <= i < |s| :: s[i] == Proc([], 0, 0, false)
  }

  /** Runs of the system, newest state last. */
  ghost predicate IsRun(run: seq<System>) {
    && |run| > 0 && Init(run[0])
    && forall i | 0 <= i < |run| - 1 :: Next(run[i], run[i + 1])
  }

  ghost predicate Sound(p: Proc) {
    && InBounds(p)
    && HoldsNothing(p.log, p.base)
    && (IsCall(p.log[p.base..]) || (p.log == [] && p.base == 0))
  }

  ghost predicate Exclusion(s: System) {
    forall i, k, f, b: nat {:trigger Held(s[i], f, b), Held(s[k], f, b)} | 0 <= i < |s| && 0 <= k < |s| && i != k
      && Held(s[i], f, b).Locked? && Held(s[k], f, b).Locked? ::
      Held(s[i], f, b).mode == Shared && Held(s[k], f, b).mode == Shared
  }

  ghost predicate Good(s: System) {
    (forall i | 0 <= i < |s| :: Sound(s[i])) && Exclusion(s)
  }

  lemma {:induction false} ReachableIsGood(run: seq<System>)
    requires IsRun(run)
    ensures Good(run[|run| - 1])
  {
    hide Next, Good, Init;
    var n := |run| - 1;
    if n == 0 {
      InitIsGood(run[0]);
    } else {
      assert IsRun(run[..n]);
      ReachableIsGood(run[..n]);
      assert Next(run[n - 1], run[n]);
      StepKeepsGood(run[n - 1], run[n]);
    }
  }

  lemma InitIsGood(s: System)
    requires Init(s)
    ensures Good(s)
  {
    forall i | 0 <= i < |s| ensures Sound(s[i]) && forall f, b: nat :: Held(s[i], f, b) == Unlocked {
      assert HoldsNothing([], 0);
    }
  }

  lemma StepKeepsGood(s: System, s': System)
    requires Good(s) && Next(s, s')
    ensures Good(s')
  {
    var i :| 0 <= i < |s| && (
      || (CanStep(s, i) && s' == s[i := Stepped(s[i])])
      || (exists call :: IsCall(call) && !s[i].dead && s[i].pc == |s[i].log|
                         && s' == s[i := Proc(s[i].log + call, |s[i].log|, |s[i].log|, false)])
      || s' == s[i := s[i].(dead := true)]);
    if CanStep(s, i) && s' == s[i := Stepped(s[i])] {
      ActKeepsGood(s, i);
    } else if s' == s[i := s[i].(dead := true)] {
      assert Sound(s'[i]) by { assert Sound(s[i]); }
      assert forall f, b: nat :: Held(s'[i], f, b) == Unlocked;
      QuieterKeepsGood(s, s', i);
    } else {
      var call :| IsCall(call) && !s[i].dead && s[i].pc == |s[i].log|
                  && s' == s[i := Proc(s[i].log + call, |s[i].log|, |s[i].log|, false)];
      assert Sound(s[i]);
      AtRestHoldsNothing(s[i]);
      HeldPrefix(s[i].log, call, |s[i].log|);
      assert s'[i].log[s'[i].base..] == call;
      forall f, b: nat ensures Held(s'[i], f, b) == Unlocked {
        assert HoldsNothing(s'[i].log, s'[i].pc);
      }
      QuieterKeepsGood(s, s', i);
    }
  }

  /** A change of one process that takes no lock. */
  lemma QuieterKeepsGood(s: System, s': System, i: nat)
    requires Good(s) && i < |s| == |s'| && s' == s[i := s'[i]] && Sound(s'[i])
    requires forall f, b: nat :: Held(s'[i], f, b) == Unlocked || Held(s'[i], f, b) == Held(s[i], f, b)
    ensures Good(s')
  {
    hide Sound, Held;
    forall k | 0 <= k < |s'| ensures Sound(s'[k]) {}
  }

  lemma ActKeepsGood(s: System, i: nat)
    requires Good(s) && CanStep(s, i)
    ensures Good(s[i := Stepped(s[i])])
  {
    var s' := s[i := Stepped(s[i])];
    var p, act := s[i], s[i].log[s[i].pc];
    assert Sound(p);
    assert Sound(s'[i]);
    forall k, f, b: nat | 0 <= k < |s| && k != i && Held(s'[i], f, b).Locked? && Held(s[k], f, b).Locked?
      ensures Held(s'[i], f, b).mode == Shared && Held(s[k], f, b).mode == Shared
    {
      if Covers(act, f, b) {
        assert !Waits(s, i, k);
      } else {
        assert Held(s'[i], f, b) == Held(p, f, b);
      }
    }
    hide Sound, Held;
    forall k | 0 <= k < |s'| ensures Sound(s'[k]) {}
  }

  /** A process between calls holds no lock. */
  lemma AtRestHoldsNothing(p: Proc)
    requires Sound(p) && p.pc == |p.log|
    ensures HoldsNothing(p.log, p.pc)
  {
    if p.log != [] {
      var call := p.log[p.base..];
      CallsAreDisciplined(call);
      BaseHeld(p);
      HeldAfter(p.log[..p.base], call, |call|);
      assert p.log[..p.base] + call == p.log;
    }
  }

  lemma BaseHeld(p: Proc)
    requires Sound(p)
    ensures HoldsNothing(p.log[..p.base], p.base)
  {
    var a, call := p.log[..p.base], p.log[p.base..];
    assert a + call == p.log;
    forall f, b: nat ensures LockAt(a, p.base, f, b) == Unlocked {
      LockPrefix(a, call, p.base, f, b);
      assert LockAt(p.log, p.base, f, b) == Unlocked;
    }
  }

  // ---- Who may hold a lock together ----

  /** The call that a process is in, or was in last. */
  function CallOf(p: Proc): seq<Act>
    requires InBounds(p)
  {
    p.log[p.base..]
  }

  /** The call only reads: a scan, or a fetch. */
  ghost predicate Reads(call: seq<Act>) {
    call == ScanActs() || exists h: nat :: h < NHASH && call == Chained(ChainAt(h), Shared, [])
  }

  /** A lock that is held was requested, on that byte and in that mode, and not since given up. */
  lemma {:induction false} LockFrom(log: seq<Act>, n: nat, f: File, b: nat) returns (i: nat)
    requires n <= |log| && LockAt(log, n, f, b).Locked?
    ensures i < n && log[i].Acquire? && Covers(log[i], f, b) && log[i].mode == LockAt(log, n, f, b).mode
  {
    if Covers(log[n - 1], f, b) {
      i := n - 1;
    } else {
      i := LockFrom(log, n - 1, f, b);
    }
  }

  /** Which requests are shared: those of a call that only reads. */
  lemma SharedOnlyToRead(call: seq<Act>, i: nat)
    requires IsCall(call) && i < |call| && call[i].Acquire?
    ensures call[i].mode == Shared <==> Reads(call)
  {
    if call != OpenActs() && call != ScanActs() {
      var h: nat, mode, inner :| IsChained(call, h, mode, inner);
      ChainedModes(h, mode, inner, i);
      NotBoth(call, h, mode, inner);
    } else {
      OpenIsNoRead();
    }
  }

  lemma ChainedModes(h: nat, mode: Mode, inner: seq<Act>, i: nat)
    requires IsInner(inner) && (mode == Shared ==> inner == [])
    requires i < |Chained(ChainAt(h), mode, inner)| && Chained(ChainAt(h), mode, inner)[i].Acquire?
    ensures Chained(ChainAt(h), mode, inner)[i].mode == mode
  {
    var s := Chained(ChainAt(h), mode, inner);
    if i > 0 {
      assert i <= |inner| && s[i] == inner[i - 1];
    }
  }

  /** A chained call reads exactly if it shares its chain's lock. */
  lemma NotBoth(call: seq<Act>, h: nat, mode: Mode, inner: seq<Act>)
    requires IsChained(call, h, mode, inner)
    ensures Reads(call) <==> mode == Shared
  {
    assert call[0] == Acquire(IdxFd, ChainAt(h), 1, mode);
    assert ScanActs()[0] == Acquire(IdxFd, 0, 1, Shared);
    forall g: nat ensures Chained(ChainAt(g), Shared, [])[0] == Acquire(IdxFd, ChainAt(g), 1, Shared) {}
  }

  lemma OpenIsNoRead()
    ensures !Reads(OpenActs()) && OpenActs()[0].mode == Exclusive && ScanActs()[0].mode == Shared
    ensures |OpenActs()| == |ScanActs()| == 2 && OpenActs()[1].Release? && ScanActs()[1].Release?
  {
    assert OpenActs()[0] == Acquire(IdxFd, 0, 0, Exclusive) && ScanActs()[0] == Acquire(IdxFd, 0, 1, Shared);
    forall g: nat ensures Chained(ChainAt(g), Shared, [])[0] == Acquire(IdxFd, ChainAt(g), 1, Shared) {}
  }

  /** A call that only reads requests one byte: that of the free list, or the head of its chain. */
  lemma ReadsOneByte(call: seq<Act>, i: nat, f: File, b: nat)
    requires Reads(call) && i < |call| && call[i].Acquire? && Covers(call[i], f, b)
    ensures f == IdxFd && b < APPEND_OFF
    ensures b == 0 <==> call == ScanActs()
    ensures b != 0 ==> ChainByte(f, b) && call == Chained(b, Shared, [])
  {
    if call == ScanActs() {
      OpenIsNoRead();
      assert call[0] == Acquire(IdxFd, 0, 1, Shared);
    } else {
      var h: nat :| h < NHASH && call == Chained(ChainAt(h), Shared, []);
      assert call[0] == Acquire(IdxFd, ChainAt(h), 1, Shared) && call[1] == Release(IdxFd, ChainAt(h), 1)
             && |call| == 2;
    }
  }

  /** A process that holds a lock is in a call that requested it. */
  lemma HeldFrom(p: Proc, f: File, b: nat) returns (i: nat)
    requires Sound(p) && Held(p, f, b).Locked?
    ensures IsCall(CallOf(p)) && i < |CallOf(p)|
    ensures CallOf(p)[i].Acquire? && Covers(CallOf(p)[i], f, b) && CallOf(p)[i].mode == Held(p, f, b).mode
  {
    SameLocks(p);
    if p.log == [] {
      i := LockFrom(p.log, p.pc, f, b);
    } else {
      i := LockFrom(CallOf(p), p.pc - p.base, f, b);
    }
  }

  /** In every reachable state, of two processes that hold a lock on the same byte both only read, and
      the byte is that of the free list, both scanning, or the head of a chain, both fetching from it.
      So no byte of the data file and none of the index file from the first record on is ever held by
      two; no deletion holds the free list while another deletion or a scan does; and no store and no
      deletion holds a chain while any other call does. */
  lemma WritersAlone(run: seq<System>, i: nat, k: nat, f: File, b: nat)
    requires IsRun(run) && i < |run[|run| - 1]| && k < |run[|run| - 1]| && i != k
    requires var s := run[|run| - 1]; Held(s[i], f, b).Locked? && Held(s[k], f, b).Locked?
    ensures var s := run[|run| - 1];
            && InBounds(s[i]) && InBounds(s[k])
            && f == IdxFd && b < APPEND_OFF
            && ((b == 0 && CallOf(s[i]) == CallOf(s[k]) == ScanActs())
                || (ChainByte(f, b) && CallOf(s[i]) == CallOf(s[k]) == Chained(b, Shared, [])))
  {
    var s := run[|run| - 1];
    ReachableIsGood(run);
    assert Sound(s[i]) && Sound(s[k]);
    assert Held(s[i], f, b).mode == Shared && Held(s[k], f, b).mode == Shared;
    var x := HeldFrom(s[i], f, b);
    SharedOnlyToRead(CallOf(s[i]), x);
    ReadsOneByte(CallOf(s[i]), x, f, b);
    var y := HeldFrom(s[k], f, b);
    SharedOnlyToRead(CallOf(s[k]), y);
    ReadsOneByte(CallOf(s[k]), y, f, b);
  }

  /** And readers never wait for readers. */
  lemma ReadersShare(run: seq<System>, i: nat, k: nat)
    requires IsRun(run) && Waits(run[|run| - 1], i, k)
    ensures var s := run[|run| - 1];
            InBounds(s[i]) && InBounds(s[k]) && !(Reads(CallOf(s[i])) && Reads(CallOf(s[k])))
  {
    var s := run[|run| - 1];
    ReachableIsGood(run);
    var p, q := s[i], s[k];
    assert Sound(p) && Sound(q);
    var f, b: nat :| Covers(p.log[p.pc], f, b) && Held(q, f, b).Locked?
                     && (p.log[p.pc].mode == Exclusive || Held(q, f, b).mode == Exclusive);
    assert CallOf(p)[p.pc - p.base] == p.log[p.pc];
    SharedOnlyToRead(CallOf(p), p.pc - p.base);
    var y := HeldFrom(q, f, b);
    SharedOnlyToRead(CallOf(q), y);
  }

  /** But the search of the free list is under no lock: two stores on different chains can both stand
      between their chain lock and the release of the free list, where db_store takes a record off it. */
  lemma StoresRace(h: nat, g: nat)
    requires h < NHASH && g < NHASH && h != g
    ensures exists run :: IsRun(run) && run[|run| - 1] == [Searching(h), Searching(g)]
    ensures forall b: nat | b != ChainAt(h) :: Held(Searching(h), IdxFd, b) == Unlocked
  {
    hide Next, Searching, CanStep;
    var rest, a, c := Proc([], 0, 0, false), Searching(h), Searching(g);
    var a0, c0 := a.(pc := 0), c.(pc := 0);
    SearchingHolds(h);
    SearchingHolds(g);
    var run := [[rest, rest], [a0, rest], [a, rest], [a, c0], [a, c]];
    assert run[1] == run[0][0 := a0] && run[3] == run[2][1 := c0];
    Begins(run[0], 0, h);
    TakesChain(run[1], 0, h);
    Begins(run[2], 1, g);
    TakesChain(run[3], 1, g);
    assert run[2] == run[1][0 := a] && run[4] == run[3][1 := c];
    assert IsRun(run);
  }

  lemma SearchingHolds(h: nat)
    requires h < NHASH
    ensures forall f, b: nat :: Held(Searching(h).(pc := 0), f, b) == Unlocked
    ensures forall f, b: nat ::
              Held(Searching(h), f, b) == if f == IdxFd && b == ChainAt(h) then Locked(Exclusive) else Unlocked
  {
    var p := Searching(h);
    assert p.log[0] == Acquire(IdxFd, ChainAt(h), 1, Exclusive);
    forall f, b: nat
      ensures Held(p, f, b) == if f == IdxFd && b == ChainAt(h) then Locked(Exclusive) else Unlocked
    {
      assert LockAt(p.log, 0, f, b) == Unlocked;
    }
  }

  /** A process between calls begins a store. */
  lemma Begins(s: System, i: nat, h: nat)
    requires h < NHASH && i < |s| && s[i] == Proc([], 0, 0, false)
    ensures Next(s, s[i := Searching(h).(pc := 0)])
  {
    var call := Chained(ChainAt(h), Exclusive, ReuseActs());
    assert IsChained(call, h, Exclusive, ReuseActs()) && IsCall(call);
    assert [] + call == call;
    assert s[i := Searching(h).(pc := 0)] == s[i := Proc(s[i].log + call, |s[i].log|, |s[i].log|, false)];
  }

  /** It locks its chain, when nobody else holds that. */
  lemma TakesChain(s: System, i: nat, h: nat)
    requires h < NHASH && i < |s| && s[i] == Searching(h).(pc := 0)
    requires forall k | 0 <= k < |s| && k != i :: Held(s[k], IdxFd, ChainAt(h)) == Unlocked
    ensures Next(s, s[i := Searching(h)])
  {
    assert s[i].log[0] == Acquire(IdxFd, ChainAt(h), 1, Exclusive);
    forall k | 0 <= k < |s| && k != i ensures !Waits(s, i, k) {
      forall f, b: nat | Covers(s[i].log[0], f, b) ensures Held(s[k], f, b) == Unlocked {}
    }
    assert CanStep(s, i) && Stepped(s[i]) == Searching(h);
  }

  /** A store that has locked its chain and has yet to release the free list. */
  function Searching(h: nat): Proc {
    Proc(Chained(ChainAt(h), Exclusive, ReuseActs()), 0, 1, false)
  }

  // ---- Deadlock freedom ----

  /** 0: not at a request; 1: at a request under a chain lock; 2: at a request and holding nothing. */
  ghost function Rank(p: Proc): nat {
    if !Busy(p) || !p.log[p.pc].Acquire? then 0
    else if HoldsNothing(p.log, p.pc) then 2
    else 1
  }

  /** A process that requests while it holds something holds only chain heads and requests only
      other bytes. */
  lemma RequestsInOrder(p: Proc)
    requires Sound(p) && Busy(p) && p.log[p.pc].Acquire? && !HoldsNothing(p.log, p.pc)
    ensures forall f, b: nat | Held(p, f, b).Locked? :: ChainByte(f, b)
    ensures forall f, b: nat | Covers(p.log[p.pc], f, b) :: !ChainByte(f, b)
  {
    var call, i := p.log[p.base..], p.pc - p.base;
    CallsAreDisciplined(call);
    assert call[i] == p.log[p.pc];
    SameLocks(p);
    assert !HoldsNothing(call, i);
    hide IsCall, LockAt, HoldsNothing;
    forall f, b: nat | Held(p, f, b).Locked? ensures ChainByte(f, b) {
      assert LockAt(call, i, f, b) != Unlocked;
    }
  }

  /** The locks held in the middle of a call are those of the call alone. */
  lemma SameLocks(p: Proc)
    requires Sound(p)
    ensures forall f, b: nat :: LockAt(p.log, p.pc, f, b) == LockAt(p.log[p.base..], p.pc - p.base, f, b)
    ensures HoldsNothing(p.log, p.pc) <==> HoldsNothing(p.log[p.base..], p.pc - p.base)
  {
    var a, call, i := p.log[..p.base], p.log[p.base..], p.pc - p.base;
    hide LockAt, IsCall;
    assert a + call == p.log;
    BaseHeld(p);
    HeldAfter(a, call, i);
    forall f, b: nat ensures LockAt(p.log, p.pc, f, b) == LockAt(call, i, f, b) {
      assert LockAt(a, |a|, f, b) == Unlocked;
      LockAfter(a, call, i, f, b);
    }
  }

  /** Waiting always leads to a lower rank, so no process waits for itself through others. */
  lemma WaitsDescend(s: System, i: nat, k: nat)
    requires Good(s) && Waits(s, i, k)
    ensures Rank(s[k]) < Rank(s[i]) && Busy(s[k])
  {
    var p, q := s[i], s[k];
    assert Sound(p) && Sound(q);
    var f, b: nat :| Covers(p.log[p.pc], f, b) && Held(q, f, b).Locked?;
    assert LockAt(q.log, q.pc, f, b) == Held(q, f, b);
    assert !HoldsNothing(q.log, q.pc);
    assert q.pc < |q.log| by {
      if q.pc == |q.log| {
        AtRestHoldsNothing(q);
      }
    }
    if q.log[q.pc].Acquire? {
      RequestsInOrder(q);
      if !HoldsNothing(p.log, p.pc) {
        RequestsInOrder(p);
      }
    }
  }

  ghost predicate WaitPath(s: System, path: seq<nat>) {
    forall m | 0 <= m < |path| - 1 :: Waits(s, path[m], path[m + 1])
  }

  lemma {:induction false} RanksFall(s: System, path: seq<nat>)
    requires Good(s) && |path| > 1 && WaitPath(s, path)
    ensures path[0] < |s| && path[|path| - 1] < |s| && Rank(s[path[|path| - 1]]) + |path| - 1 <= Rank(s[path[0]])
  {
    hide Rank, Good, Waits;
    var n := |path| - 1;
    assert Waits(s, path[n - 1], path[n]);
    WaitsInside(s, path[n - 1], path[n]);
    WaitsDescend(s, path[n - 1], path[n]);
    if n > 1 {
      assert WaitPath(s, path[..n]);
      RanksFall(s, path[..n]);
    }
  }

  lemma WaitsInside(s: System, i: nat, k: nat)
    requires Waits(s, i, k)
    ensures i < |s| && k < |s|
  {
  }

  /** In every reachable state, for any number of processes: no cycle of waiting, and no chain of
      waiting longer than two. */
  lemma NoDeadlock(run: seq<System>, path: seq<nat>)
    requires IsRun(run) && WaitPath(run[|run| - 1], path)
    ensures |path| <= 3
    ensures |path| > 1 ==> path[0] != path[|path| - 1]
  {
    if |path| > 1 {
      ReachableIsGood(run);
      RanksFall(run[|run| - 1], path);
    }
  }

  /** While any process is in the middle of a call, some process can take its next step. */
  lemma {:induction false} SomeoneCanStep(s: System, i: nat) returns (k: nat)
    requires Good(s) && i < |s| && Busy(s[i])
    ensures CanStep(s, k)
    decreases Rank(s[i])
  {
    if CanStep(s, i) {
      k := i;
    } else {
      var w :| 0 <= w < |s| && Waits(s, i, w);
      WaitsDescend(s, i, w);
      k := SomeoneCanStep(s, w);
    }
  }

  /** No reachable state is stuck, and whoever is not in a call holds nothing. */
  lemma Progress(run: seq<System>)
    requires IsRun(run)
    ensures var s := run[|run| - 1];
            && ((exists i :: 0 <= i < |s| && Busy(s[i])) ==> exists k :: CanStep(s, k))
            && (forall i | 0 <= i < |s| && !Busy(s[i]) :: forall f, b: nat :: Held(s[i], f, b) == Unlocked)
            && Exclusion(s)
  {
    var s := run[|run| - 1];
    ReachableIsGood(run);
    if i :| 0 <= i < |s| && Busy(s[i]) {
      var k := SomeoneCanStep(s, i);
    }
    forall i, f, b: nat | 0 <= i < |s| && !Busy(s[i]) ensures Held(s[i], f, b) == Unlocked {
      assert Sound(s[i]);
      if !s[i].dead {
        AtRestHoldsNothing(s[i]);
      }
    }
  }
}
