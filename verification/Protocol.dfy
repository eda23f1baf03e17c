/** What the dialer server keeps when its clients keep the protocol, and what goes wrong otherwise. */
module Protocol {
  import opened Records
  import opened Systems
  import opened Search
  import opened Dialer

  /** This slot is a client whose request is being served. */
  predicate Serving(c: Client, q: Conn) {
    IsLive(c) && q.request.Some?
  }

  /** Locks and running children belong to clients being served, each told apart by its pid from
      every other slot, and exit statuses wait only where they belong. */
  ghost predicate Accounted(t: Tables) {
    && Sized(t)
    && (forall l | l in t.held :: exists k ::
          0 <= k < |t.client| && Serving(t.client[k], t.conn[k]) && t.client[k].pid == t.held[l])
    && (forall p | p in t.running :: exists k ::
          0 <= k < |t.client| && Serving(t.client[k], t.conn[k]) && t.client[k].pid == p)
    && (forall k | 0 <= k < |t.client| && t.client[k].childdone != 0 :: Serving(t.client[k], t.conn[k]))
    && (forall i, k | 0 <= i < |t.client| && 0 <= k < |t.client| && i != k && Serving(t.client[i], t.conn[i]) ::
          t.client[k].pid != t.client[i].pid)
    && (forall k | 0 <= k < |t.client| && Serving(t.client[k], t.conn[k]) :: t.client[k].pid > 0)
  }

  function Entries(cfg: Config, request: (CStr, CStr)): nat {
    Remaining(cfg.file, 0, request.0, request.1)
  }

  /** A client being served has had at most as many children as the entries before its position
      allow; all of them have ended but the one that runs, if any; and while all have failed, one
      runs or the failure of the last is still to be dealt with. Others have had none. */
  predicate SlotFine(cfg: Config, c: Client, q: Conn, running: set<int>) {
    IsLive(c) ==>
      if q.request.None? then q == NewConn(q.id)
      else
        && q.request == Some((c.sysname, c.speed))
        && c.sysftell >= 0
        && q.forks + Remaining(cfg.file, c.sysftell, c.sysname, c.speed) <= Entries(cfg, (c.sysname, c.speed))
        && (Breaks(cfg.file, c.sysftell) ==> Breaks(cfg.file, 0))
        && q.ends + (if c.pid in running then 1 else 0) == q.forks
        && (c.pid in running ==> c.childdone == 0)
        && (c.childdone == 1 ==> q.ok)
        && (!q.ok ==> c.pid in running || HasFailed(c))
  }

  /** A connection that is over had at most as many children as matching entries, and all have
      ended; only one that asked was refused, and it was refused if all its children failed. */
  predicate PastFine(cfg: Config, x: Past) {
    if x.conn.request.None? then !x.refused && x.conn.forks == 0
    else
      && x.conn.forks <= Entries(cfg, x.conn.request.value)
      && x.conn.ends == x.conn.forks
      && (!x.conn.ok ==> x.refused)
  }

  ghost predicate Kept(cfg: Config, t: Tables) {
    && Sized(t)
    && Accounted(t)
    && (forall k | 0 <= k < |t.client| :: SlotFine(cfg, t.client[k], t.conn[k], t.running))
    && (forall k | 0 <= k < |t.past| :: PastFine(cfg, t.past[k]))
  }

  /** What a slot of new memory may hold: no exit status and no process of ours. */
  predicate Harmless(cfg: Config) {
    cfg.fill.childdone == 0 && cfg.fill.pid <= 0
  }

  // ---- What each change keeps ----

  /** Some lines may have been given up, among them slot i's, and slot i's child does not run. */
  ghost predicate Idle(t: Tables, i: nat, held: map<CStr, int>) {
    && Sized(t) && i < |t.client|
    && (forall l | l in held :: l in t.held && held[l] == t.held[l])
    && (Serving(t.client[i], t.conn[i]) ==> t.client[i].pid !in t.running && forall l | l in held ::
          held[l] != t.client[i].pid)
  }

  lemma ForkAccounted(t: Tables, u: Tables, i: nat, held: map<CStr, int>, line: CStr, p: int)
    requires Accounted(t) && Idle(t, i, held)
    requires Sized(u) && |u.client| == |t.client| && u.client == t.client[i := u.client[i]]
             && u.conn == t.conn[i := u.conn[i]]
    requires Serving(u.client[i], u.conn[i]) && u.client[i].pid == p && u.client[i].childdone == 0
    requires u.held == held[line := p] && u.running == t.running + {p}
    requires p > 0 && forall k | 0 <= k < |t.client| :: t.client[k].pid != p
    ensures Accounted(u)
  {
    hide Serving;
    forall l | l in u.held
      ensures exists k :: 0 <= k < |u.client| && Serving(u.client[k], u.conn[k]) && u.client[k].pid == u.held[l]
    {
      if l != line {
        var k :| 0 <= k < |t.client| && Serving(t.client[k], t.conn[k]) && t.client[k].pid == t.held[l];
        assert u.client[k] == t.client[k] && u.conn[k] == t.conn[k];
      }
    }
    forall q | q in u.running
      ensures exists k :: 0 <= k < |u.client| && Serving(u.client[k], u.conn[k]) && u.client[k].pid == q
    {
      if q != p {
        var k :| 0 <= k < |t.client| && Serving(t.client[k], t.conn[k]) && t.client[k].pid == q;
        assert u.client[k] == t.client[k] && u.conn[k] == t.conn[k];
      }
    }
  }

  lemma ClosedAccounted(t: Tables, u: Tables, i: nat, held: map<CStr, int>)
    requires Accounted(t) && Idle(t, i, held)
    requires Sized(u) && |u.client| == |t.client| && u.client == t.client[i := u.client[i]]
             && u.conn == t.conn[i := u.conn[i]]
    requires !IsLive(u.client[i]) && u.client[i].pid == t.client[i].pid && u.client[i].childdone == 0
    requires u.held == held && u.running == t.running
    ensures Accounted(u)
  {
    hide Serving;
    NotServing(u.client[i], u.conn[i]);
    forall l | l in u.held
      ensures exists k :: 0 <= k < |u.client| && Serving(u.client[k], u.conn[k]) && u.client[k].pid == u.held[l]
    {
      var k :| 0 <= k < |t.client| && Serving(t.client[k], t.conn[k]) && t.client[k].pid == t.held[l];
      assert u.client[k] == t.client[k] && u.conn[k] == t.conn[k];
    }
    forall q | q in u.running
      ensures exists k :: 0 <= k < |u.client| && Serving(u.client[k], u.conn[k]) && u.client[k].pid == q
    {
      var k :| 0 <= k < |t.client| && Serving(t.client[k], t.conn[k]) && t.client[k].pid == q;
      assert u.client[k] == t.client[k] && u.conn[k] == t.conn[k];
    }
  }

  lemma NotServing(c: Client, q: Conn)
    requires !IsLive(c)
    ensures !Serving(c, q)
  {
  }

  /** The state in which request() is called: the client's last child, if any, has ended and its
      line is free, and one more child is within its bound. */
  lemma TurnKept(cfg: Config, w: Purpose, t: Tables, i: nat)
    requires Kept(cfg, t) && i < |t.client| && Turn(w, t, i).Some?
    requires InputOf(w, t.client[i]).Some? ==> Polite(t.client[i], t.conn[i], t.running, InputOf(w, t.client[i]).value)
    ensures var u := Turn(w, t, i).value;
            && Idle(t, i, u.held)
            && u.client == t.client[i := u.client[i]] && u.conn == t.conn[i := u.conn[i]] && u.running == t.running
            && u.past == t.past
            && Serving(u.client[i], u.conn[i]) && u.client[i].pid == t.client[i].pid && u.client[i].childdone == 0
            && var c, q := u.client[i], u.conn[i];
            && q.request == Some((c.sysname, c.speed)) && c.sysftell >= 0 && q.ends == q.forks
            && q.forks + Remaining(cfg.file, c.sysftell, c.sysname, c.speed) <= Entries(cfg, (c.sysname, c.speed))
            && (Breaks(cfg.file, c.sysftell) ==> Breaks(cfg.file, 0))
  {
    hide Remaining, Breaks;
    assert SlotFine(cfg, t.client[i], t.conn[i], t.running);
    var u := Turn(w, t, i).value;
    assert u.conn == t.conn[i := u.conn[i]];
  }

  /** For slots other than i nothing that matters changes, unless p was their pid. */
  lemma OthersFine(cfg: Config, t: Tables, u: Tables, i: nat, p: int)
    requires Kept(cfg, t) && i < |t.client| && Accounted(u) && Sized(u)
    requires |u.client| == |t.client| && u.client == t.client[i := u.client[i]] && u.conn == t.conn[i := u.conn[i]]
    requires u.running == t.running
             || ((u.running == t.running + {p} || u.running == t.running - {p})
                 && forall k | 0 <= k < |t.client| && k != i :: t.client[k].pid != p)
    requires SlotFine(cfg, u.client[i], u.conn[i], u.running)
    requires u.past == t.past || (|u.past| == |t.past| + 1 && u.past[..|t.past|] == t.past
                                  && PastFine(cfg, u.past[|t.past|]))
    ensures Kept(cfg, u)
  {
    hide Remaining, Breaks, Entries, Accounted, PastFine;
    forall k | 0 <= k < |u.client| ensures SlotFine(cfg, u.client[k], u.conn[k], u.running) {
      if k != i {
        assert u.client[k] == t.client[k] && u.conn[k] == t.conn[k];
      }
    }
    forall k | 0 <= k < |u.past| ensures PastFine(cfg, u.past[k]) {
      if k < |t.past| {
        assert u.past[k] == u.past[..|t.past|][k] == t.past[k];
      }
    }
  }

  /** request() for one slot, and what follows if it fails. */
  lemma TriedKept(cfg: Config, w: Purpose, t: Tables, i: nat, pid: int)
    requires Kept(cfg, t) && i < |t.client| && MayAct(cfg, w, t, i, pid, true) && Turn(w, t, i).Some?
    ensures var r := Tried(cfg, Turn(w, t, i).value, i, pid);
            && (r.Fail? ==> Breaks(cfg.file, 0))
            && (r.Done? ==> Kept(cfg, r.value))
  {
    hide Turn, Accounted, Remaining, Breaks, Kept, Choose, Complaint;
    KeptSized(cfg, t);
    TurnKept(cfg, w, t, i);
    var u := Turn(w, t, i).value;
    var c, q := u.client[i], u.conn[i];
    var query := QueryOf(cfg, u.held, c);
    BrokenBreaks(query, c.sysftell, c.foundone, NoMsg);
    DialUsesUp(query, c.sysftell, c.foundone, NoMsg);
    var r := Tried(cfg, u, i, pid);
    if r.Done? {
      var v := r.value;
      assert v.client == t.client[i := v.client[i]] && v.conn == t.conn[i := v.conn[i]];
      var choice := ChoiceFor(cfg, u.held, c);
      if choice.Dial? {
        ForkAccounted(t, v, i, u.held, choice.line, pid);
        OthersFine(cfg, t, v, i, pid);
      } else {
        ClosedAccounted(t, v, i, u.held);
        assert v.past == t.past + [Past(q, c.fd, true)];
        OthersFine(cfg, t, v, i, 0);
      }
    }
  }

  lemma KeptSized(cfg: Config, t: Tables)
    requires Kept(cfg, t)
    ensures Sized(t) && Accounted(t)
  {
  }

  lemma ActKept(cfg: Config, w: Purpose, t: Tables, i: nat, pid: int)
    requires Kept(cfg, t) && i < |t.client| && MayAct(cfg, w, t, i, pid, true)
    ensures var r := Act(cfg, w, t, i, pid);
            && (r.Fail? ==> Breaks(cfg.file, 0) || InputOf(w, t.client[i]) == Some(Garbage))
            && (r.Done? ==> Kept(cfg, r.value))
  {
    hide Turn, Tried, Accounted, Remaining, Breaks, Kept, ChoiceFor, Entries;
    KeptSized(cfg, t);
    var c, q, r := t.client[i], t.conn[i], Act(cfg, w, t, i, pid);
    if Turn(w, t, i).Some? {
      TriedKept(cfg, w, t, i, pid);
    } else if InputOf(w, c).Some? {
      if r.Done? {
        PoliteIdle(cfg, t, i);
        ClosedAccounted(t, r.value, i, Without(t.held, c.pid));
        assert r.value.conn == t.conn[i := r.value.conn[i]];
        OthersFine(cfg, t, r.value, i, 0);
      }
    } else if w.Settling? && IsLive(c) && c.childdone == 1 {
      KeptSlot(cfg, t, i);
      ClearedAccounted(t, r.value, i);
      assert r.value.conn == t.conn[i := r.value.conn[i]];
      OthersFine(cfg, t, r.value, i, 0);
    }
  }

  lemma KeptSlot(cfg: Config, t: Tables, i: nat)
    requires Kept(cfg, t) && i < |t.client|
    ensures Sized(t) && SlotFine(cfg, t.client[i], t.conn[i], t.running)
  {
  }

  /** A polite hang-up: the client's child, if there was one, has ended in success, or by a signal. */
  lemma PoliteIdle(cfg: Config, t: Tables, i: nat)
    requires Kept(cfg, t) && i < |t.client| && IsLive(t.client[i]) && Polite(t.client[i], t.conn[i], t.running, HangUp)
    ensures Idle(t, i, Without(t.held, t.client[i].pid)) && t.client[i].childdone == 0
    ensures PastFine(cfg, Past(t.conn[i], t.client[i].fd, false))
  {
    hide Remaining, Breaks;
    assert SlotFine(cfg, t.client[i], t.conn[i], t.running);
  }

  lemma ClearedAccounted(t: Tables, u: Tables, i: nat)
    requires Accounted(t) && i < |t.client| && IsLive(t.client[i])
    requires u == t.(client := t.client[i := t.client[i].(childdone := 0)])
    ensures Accounted(u)
  {
    forall k | 0 <= k < |u.client| ensures u.client[k] == t.client[k].(childdone := u.client[k].childdone) {}
    forall l | l in u.held
      ensures exists k :: 0 <= k < |u.client| && Serving(u.client[k], u.conn[k]) && u.client[k].pid == u.held[l]
    {
      var k :| 0 <= k < |t.client| && Serving(t.client[k], t.conn[k]) && t.client[k].pid == t.held[l];
      assert Serving(u.client[k], u.conn[k]) && u.client[k].pid == u.held[l];
    }
    forall q | q in u.running
      ensures exists k :: 0 <= k < |u.client| && Serving(u.client[k], u.conn[k]) && u.client[k].pid == q
    {
      var k :| 0 <= k < |t.client| && Serving(t.client[k], t.conn[k]) && t.client[k].pid == q;
      assert Serving(u.client[k], u.conn[k]) && u.client[k].pid == q;
    }
  }

  /** Some live client is read, and what it sent is not a proper request. */
  ghost predicate Garbled(w: Purpose, t: Tables) {
    exists i :: 0 <= i < |t.client| && InputOf(w, t.client[i]) == Some(Garbage)
  }

  lemma {:induction false} SweepKept(cfg: Config, w: Purpose, t: Tables, pids: seq<int>, n: nat)
    requires Kept(cfg, t) && n <= |t.client| && MaySweep(cfg, w, t, pids, n, true)
    ensures var r := Sweep(cfg, w, t, pids, n);
            && (r.Fail? ==> Breaks(cfg.file, 0) || Garbled(w, t))
            && (r.Done? ==> Kept(cfg, r.value))
  {
    hide Act, MayAct, Kept, Breaks, InputOf;
    KeptSized(cfg, t);
    if n > 0 {
      SweepKept(cfg, w, t, pids, n - 1);
      SweepSettles(cfg, w, t, pids, n - 1);
      if Sweep(cfg, w, t, pids, n - 1).Done? {
        ActKept(cfg, w, Sweep(cfg, w, t, pids, n - 1).value, n - 1, PidAt(pids, n - 1));
      }
    }
  }

  /** A running child ends: the one slot that remembers it is that of the client it dialed for. */
  lemma NotedKept(cfg: Config, t: Tables, pid: int, exited: bool, stat: nat)
    requires Kept(cfg, t) && pid in t.running
    ensures Noted(t, pid, exited, stat).Done? && Kept(cfg, Noted(t, pid, exited, stat).value)
  {
    hide Remaining, Breaks, Entries, Accounted, Kept;
    KeptSized(cfg, t);
    var i := ChildSlot(t, pid);
    KeptSlot(cfg, t, i);
    var r := Noted(t, pid, exited, stat);
    assert r.Done?;
    assert r.value.client == t.client[i := r.value.client[i]];
    NotedAccounted(t, r.value, i, pid);
    OthersFine(cfg, t, r.value, i, pid);
  }

  lemma ChildSlot(t: Tables, pid: int) returns (i: nat)
    requires Accounted(t) && pid in t.running
    ensures i == SlotOf(t.client, pid) < |t.client| && Serving(t.client[i], t.conn[i])
    ensures forall k | 0 <= k < |t.client| && t.client[k].pid == pid :: k == i
  {
    i :| 0 <= i < |t.client| && Serving(t.client[i], t.conn[i]) && t.client[i].pid == pid;
    var k := SlotOf(t.client, pid);
    assert k <= i;
  }

  lemma NotedAccounted(t: Tables, u: Tables, i: nat, pid: int)
    requires Accounted(t) && Sized(u) && i < |t.client| && Serving(t.client[i], t.conn[i])
    requires |u.client| == |t.client| && u.client == t.client[i := u.client[i]] && u.conn == t.conn[i := u.conn[i]]
    requires u.client[i].fd == t.client[i].fd && u.client[i].pid == t.client[i].pid == pid
    requires u.conn[i].request == t.conn[i].request && u.held == t.held && u.running == t.running - {pid}
    ensures Accounted(u)
  {
    forall k | 0 <= k < |u.client|
      ensures u.client[k].pid == t.client[k].pid
              && (Serving(u.client[k], u.conn[k]) <==> Serving(t.client[k], t.conn[k]))
    {}
    forall l | l in u.held
      ensures exists k :: 0 <= k < |u.client| && Serving(u.client[k], u.conn[k]) && u.client[k].pid == u.held[l]
    {
      var k :| 0 <= k < |t.client| && Serving(t.client[k], t.conn[k]) && t.client[k].pid == t.held[l];
      assert Serving(u.client[k], u.conn[k]) && u.client[k].pid == u.held[l];
    }
    forall q | q in u.running
      ensures exists k :: 0 <= k < |u.client| && Serving(u.client[k], u.conn[k]) && u.client[k].pid == q
    {
      var k :| 0 <= k < |t.client| && Serving(t.client[k], t.conn[k]) && t.client[k].pid == q;
      assert Serving(u.client[k], u.conn[k]) && u.client[k].pid == q;
    }
  }

  lemma JoinedKept(cfg: Config, t: Tables, fd: int, uid: int)
    requires Kept(cfg, t) && Harmless(cfg) && fd >= 0
    ensures Kept(cfg, Joined(cfg, t, fd, uid))
  {
    hide Remaining, Breaks, Entries;
    var u, i := Joined(cfg, t, fd, uid), FreeSlot(t.client);
    forall k | 0 <= k < |u.client| && k != i
      ensures if k < |t.client| then u.client[k] == t.client[k] && u.conn[k] == t.conn[k]
              else u.client[k] == cfg.fill.(fd := -1)
    {
      assert u.client[k] == Roomy(t.client, cfg.fill)[k];
    }
    assert !Serving(u.client[i], u.conn[i]);
    assert i < |t.client| ==>
             !Serving(t.client[i], t.conn[i]) && u.client[i].pid == t.client[i].pid && t.client[i].childdone == 0;
    JoinedAccounted(t, u, i);
  }

  lemma JoinedAccounted(t: Tables, u: Tables, i: nat)
    requires Accounted(t) && Sized(u) && |u.client| >= |t.client| && i < |u.client|
    requires forall k | 0 <= k < |t.client| && k != i :: u.client[k] == t.client[k] && u.conn[k] == t.conn[k]
    requires forall k | |t.client| <= k < |u.client| ::
               !Serving(u.client[k], u.conn[k]) && u.client[k].pid <= 0 && u.client[k].childdone == 0
    requires i < |t.client| ==> !Serving(t.client[i], t.conn[i]) && u.client[i].pid == t.client[i].pid
    requires !Serving(u.client[i], u.conn[i]) && u.client[i].childdone == 0
    requires u.held == t.held && u.running == t.running
    ensures Accounted(u)
  {
    hide Serving;
    forall l | l in u.held
      ensures exists k :: 0 <= k < |u.client| && Serving(u.client[k], u.conn[k]) && u.client[k].pid == u.held[l]
    {
      var k :| 0 <= k < |t.client| && Serving(t.client[k], t.conn[k]) && t.client[k].pid == t.held[l];
      assert u.client[k] == t.client[k] && u.conn[k] == t.conn[k];
    }
    forall q | q in u.running
      ensures exists k :: 0 <= k < |u.client| && Serving(u.client[k], u.conn[k]) && u.client[k].pid == q
    {
      var k :| 0 <= k < |t.client| && Serving(t.client[k], t.conn[k]) && t.client[k].pid == q;
      assert u.client[k] == t.client[k] && u.conn[k] == t.conn[k];
    }
  }

  // ---- Statuses are dealt with ----

  /** When the flag is down no exit status waits. */
  predicate Settled(t: Tables) {
    !t.flag ==> forall k | 0 <= k < |t.client| :: t.client[k].childdone == 0
  }

  /** No slot's status has become nonzero, and settling has dealt with those of the first n live slots. */
  ghost predicate FewerStatuses(w: Purpose, t: Tables, u: Tables, n: nat) {
    && |u.client| == |t.client| && u.flag == t.flag
    && (forall k | 0 <= k < |t.client| :: u.client[k].childdone == t.client[k].childdone || u.client[k].childdone == 0)
    && (w.Settling? ==> forall k | 0 <= k < n && k < |t.client| && IsLive(t.client[k]) :: u.client[k].childdone == 0)
    && (forall k | n <= k < |t.client| :: u.client[k] == t.client[k])
  }

  lemma ActSettles(cfg: Config, w: Purpose, t: Tables, u: Tables, n: nat, pid: int)
    requires Sized(u) && n < |t.client| && FewerStatuses(w, t, u, n)
    ensures Act(cfg, w, u, n, pid).Done? ==> FewerStatuses(w, t, Act(cfg, w, u, n, pid).value, n + 1)
  {
    hide ChoiceFor, Without, Complaint;
    var r := Act(cfg, w, u, n, pid);
    if r.Done? {
      assert r.value.client == u.client[n := r.value.client[n]];
      assert r.value.flag == u.flag;
    }
  }

  lemma {:induction false} SweepSettles(cfg: Config, w: Purpose, t: Tables, pids: seq<int>, n: nat)
    requires Sized(t) && n <= |t.client|
    ensures Sweep(cfg, w, t, pids, n).Done? ==> FewerStatuses(w, t, Sweep(cfg, w, t, pids, n).value, n)
  {
    hide Act, FewerStatuses;
    if n > 0 {
      SweepSettles(cfg, w, t, pids, n - 1);
      if Sweep(cfg, w, t, pids, n - 1).Done? {
        ActSettles(cfg, w, t, Sweep(cfg, w, t, pids, n - 1).value, n - 1, PidAt(pids, n - 1));
      }
    } else {
      NothingSettled(w, t);
    }
  }

  lemma NothingSettled(w: Purpose, t: Tables)
    ensures FewerStatuses(w, t, t, 0)
  {
  }

  // ---- Runs ----

  /** Why the server may quit: a line of the Systems file is malformed, or a live client that is read
      has sent garbage. */
  ghost predicate Quits(cfg: Config, t: Tables, m: Move) {
    Breaks(cfg.file, 0) || (m.Hear? && Garbled(Reading(m.got), t))
  }

  ghost predicate Good(cfg: Config, t: Tables) {
    Safe(cfg, t) && Kept(cfg, t) && Settled(t)
  }

  lemma ApplyGood(cfg: Config, t: Tables, m: Move)
    requires Good(cfg, t) && Harmless(cfg) && May(cfg, t, m, true)
    ensures var r := Apply(cfg, t, m);
            && (r.Fail? ==> Quits(cfg, t, m))
            && (r.Done? ==> Good(cfg, r.value))
  {
    hide Sweep, MaySweep, Kept, Safe, Settled, Joined, Noted, Breaks;
    KeptSized(cfg, t);
    MayAnyway(cfg, t, m);
    ApplySafe(cfg, t, m);
    match m
    case Exit(pid, exited, stat) =>
      NotedKept(cfg, t, pid, exited, stat);
      NotedSettled(t, pid, exited, stat);
    case Settle(pids) =>
      var t0 := t.(flag := false);
      FlagKept(cfg, t);
      SweepKept(cfg, Settling, t0, pids, t0.maxi + 1);
      if Apply(cfg, t, m).Done? {
        SweepSettles(cfg, Settling, t0, pids, t0.maxi + 1);
        AllSettled(cfg, t0, Apply(cfg, t, m).value);
      }
    case Arrive(fd, uid) =>
      JoinedKept(cfg, t, fd, uid);
      JoinedSettled(cfg, t, fd, uid);
    case Hear(got, pids) =>
      SweepKept(cfg, Reading(got), t, pids, t.maxi + 1);
      SweepSettles(cfg, Reading(got), t, pids, t.maxi + 1);
      if Apply(cfg, t, m).Done? {
        StillSettled(Reading(got), t, Apply(cfg, t, m).value, t.maxi + 1);
      }
  }

  lemma MayAnyway(cfg: Config, t: Tables, m: Move)
    requires Sized(t) && May(cfg, t, m, true)
    ensures May(cfg, t, m, false)
  {
    hide Sweep, MaySweep;
    match m
    case Exit(_, _, _) =>
    case Settle(pids) => MaySweepAnyway(cfg, Settling, t.(flag := false), pids, t.maxi + 1);
    case Arrive(_, _) =>
    case Hear(got, pids) => MaySweepAnyway(cfg, Reading(got), t, pids, t.maxi + 1);
  }

  lemma NotedSettled(t: Tables, pid: int, exited: bool, stat: nat)
    requires Sized(t)
    ensures Noted(t, pid, exited, stat).Done? ==> Settled(Noted(t, pid, exited, stat).value)
  {
  }

  lemma FlagKept(cfg: Config, t: Tables)
    requires Kept(cfg, t)
    ensures Kept(cfg, t.(flag := false))
  {
    hide Remaining, Breaks, Entries;
    var u := t.(flag := false);
    assert forall k | 0 <= k < |t.client| :: u.client[k] == t.client[k] && u.conn[k] == t.conn[k];
  }

  /** A status waits only at a live slot, and those are all within maxi. */
  lemma AllSettled(cfg: Config, t: Tables, u: Tables)
    requires Safe(cfg, u) && Kept(cfg, t) && Kept(cfg, u) && -1 <= t.maxi == u.maxi < |t.client|
    requires FewerStatuses(Settling, t, u, t.maxi + 1)
    ensures Settled(u)
  {
    hide Safe, Kept, Accounted;
    KeptSized(cfg, t);
    KeptSized(cfg, u);
    forall k | 0 <= k < |u.client| ensures u.client[k].childdone == 0 {
      StatusLive(t, k);
      StatusLive(u, k);
      LiveWithin(cfg, u, k);
    }
  }

  lemma StatusLive(t: Tables, k: nat)
    requires Accounted(t) && k < |t.client|
    ensures t.client[k].childdone != 0 ==> IsLive(t.client[k])
  {
  }

  lemma LiveWithin(cfg: Config, t: Tables, k: nat)
    requires Safe(cfg, t) && k < |t.client|
    ensures IsLive(t.client[k]) ==> k <= t.maxi
  {
  }

  lemma StillSettled(w: Purpose, t: Tables, u: Tables, n: nat)
    requires Settled(t) && FewerStatuses(w, t, u, n)
    ensures Settled(u)
  {
  }

  lemma JoinedSettled(cfg: Config, t: Tables, fd: int, uid: int)
    requires Sized(t) && Settled(t) && Harmless(cfg)
    ensures Settled(Joined(cfg, t, fd, uid))
  {
    var u := Joined(cfg, t, fd, uid);
    forall k | 0 <= k < |u.client| ensures u.client[k].childdone == Roomy(t.client, cfg.fill)[k].childdone {}
  }

  lemma StartIsGood(cfg: Config)
    requires cfg.listenfd >= 0
    ensures Good(cfg, Start(cfg))
  {
    StartIsSafe(cfg);
  }

  /** The server quits at move n, and for one of the two reasons. */
  ghost predicate QuitsAt(cfg: Config, moves: seq<Move>, n: nat) {
    n < |moves| &&
    var u := Run(cfg, Start(cfg), moves[..n]);
    u.Done? && Apply(cfg, u.value, moves[n]).Fail? && Quits(cfg, u.value, moves[n])
  }

  /** Every polite run keeps all this, and the server quits only over a malformed line that it
      meets when reading the Systems file from its start, or over garbage from a live client. */
  lemma {:induction false} RunGood(cfg: Config, moves: seq<Move>)
    requires cfg.listenfd >= 0 && Harmless(cfg) && MayRun(cfg, Start(cfg), moves, true)
    ensures var r := Run(cfg, Start(cfg), moves);
            && (r.Fail? ==> exists n: nat :: QuitsAt(cfg, moves, n))
            && (r.Done? ==> Good(cfg, r.value))
  {
    hide Apply, May, Good, Quits;
    if |moves| > 0 {
      var n := |moves| - 1;
      RunGood(cfg, moves[..n]);
      if Run(cfg, Start(cfg), moves[..n]).Done? {
        ApplyGood(cfg, Run(cfg, Start(cfg), moves[..n]).value, moves[n]);
        assert Run(cfg, Start(cfg), moves).Fail? ==> QuitsAt(cfg, moves, n);
      } else {
        var k: nat :| QuitsAt(cfg, moves[..n], k);
        assert moves[..n][..k] == moves[..k];
        assert QuitsAt(cfg, moves, k);
      }
    } else {
      StartIsGood(cfg);
    }
  }

  /** Of every connection of a polite run, whenever no status waits: it has had at most as many
      children as there are entries for its request. While all of them have failed it is either
      still there, with one more child running, fewer ended than there are entries, and no error
      sent; or it is over, all its children have ended, and it was sent exactly one error. So a
      connection all of whose attempts fail is over, and told so once, after that many at most. */
  lemma AttemptsEnd(cfg: Config, moves: seq<Move>)
    requires cfg.listenfd >= 0 && Harmless(cfg) && MayRun(cfg, Start(cfg), moves, true)
    ensures var r := Run(cfg, Start(cfg), moves);
            r.Done? && !r.value.flag ==>
              var t := r.value;
              && Sized(t)
              && (forall k | 0 <= k < |t.client| && Serving(t.client[k], t.conn[k]) ::
                    var q := t.conn[k];
                    && q.forks <= Entries(cfg, q.request.value) && Notices(t.past, q.id) == 0
                    && (!q.ok ==> t.client[k].pid in t.running && q.ends < Entries(cfg, q.request.value)))
              && (forall k | 0 <= k < |t.past| && t.past[k].conn.request.Some? ::
                    var q := t.past[k].conn;
                    && q.ends == q.forks <= Entries(cfg, q.request.value)
                    && Notices(t.past, q.id) == (if t.past[k].refused then 1 else 0)
                    && (!q.ok ==> t.past[k].refused))
  {
    hide Run, MayRun, Remaining, Breaks, TableSound, OneLine, Accounted;
    RunGood(cfg, moves);
    MayRunAnyway(cfg, Start(cfg), moves);
    RunAccurate(cfg, moves);
    var r := Run(cfg, Start(cfg), moves);
    if r.Done? && !r.value.flag {
      var t := r.value;
      forall k | 0 <= k < |t.client| && Serving(t.client[k], t.conn[k])
        ensures Notices(t.past, t.conn[k].id) == 0
        ensures SlotFine(cfg, t.client[k], t.conn[k], t.running) && !HasFailed(t.client[k])
      {
        NoticesNone(t.past, t.conn[k].id);
      }
      forall k | 0 <= k < |t.past|
        ensures Notices(t.past, t.past[k].conn.id) == (if t.past[k].refused then 1 else 0) && PastFine(cfg, t.past[k])
      {
        NoticesOne(t.past, k);
      }
    }
  }

  lemma {:induction false} MayRunAnyway(cfg: Config, t: Tables, moves: seq<Move>)
    requires Sized(t) && MayRun(cfg, t, moves, true)
    ensures MayRun(cfg, t, moves, false)
  {
    hide Apply, May;
    if |moves| > 0 {
      MayRunAnyway(cfg, t, moves[..|moves| - 1]);
      if Run(cfg, t, moves[..|moves| - 1]).Done? {
        MayAnyway(cfg, Run(cfg, t, moves[..|moves| - 1]).value, moves[|moves| - 1]);
      }
    }
  }

  /** With no live client left in a polite run, no device is locked and no child runs. */
  lemma IdleServerHoldsNothing(cfg: Config, moves: seq<Move>)
    requires cfg.listenfd >= 0 && Harmless(cfg) && MayRun(cfg, Start(cfg), moves, true)
    ensures var r := Run(cfg, Start(cfg), moves);
            r.Done? && (forall k | 0 <= k < |r.value.client| :: !IsLive(r.value.client[k])) ==>
              r.value.held == map[] && r.value.running == {}
  {
    hide Run, MayRun, Remaining, Breaks, TableSound, OneLine;
    RunGood(cfg, moves);
    var r := Run(cfg, Start(cfg), moves);
    if r.Done? && forall k | 0 <= k < |r.value.client| :: !IsLive(r.value.client[k]) {
      assert forall k | 0 <= k < |r.value.client| :: !Serving(r.value.client[k], r.value.conn[k]);
      assert forall l :: l !in r.value.held;
      assert forall p :: p !in r.value.running;
    }
  }

  // ---- Children that do not fail ----

  /** An end is noted for a client if and only if the child exited and some slot remembers it, and
      then at the first that does; of a child killed by a signal no client hears. */
  lemma NotedIff(t: Tables, pid: int, exited: bool, stat: nat)
    requires Sized(t)
    ensures var r, k := Noted(t, pid, exited, stat), SlotOf(t.client, pid);
            && (r.Fail? <==> exited && forall j | 0 <= j < |t.client| :: t.client[j].pid != pid)
            && (r.Done? && exited ==>
                  k < |t.client| && r.value.client == t.client[k := t.client[k].(childdone := stat + 1)])
            && (!exited ==> r.value.client == t.client)
            && (r.Done? ==> r.value.held == t.held)
  {
  }

  /** Client i holds this line, and its child has ended without a failure to deal with. */
  predicate Rests(t: Tables, i: nat, line: CStr) {
    && Sized(t) && i < |t.client| && Serving(t.client[i], t.conn[i])
    && line in t.held && t.held[line] == t.client[i].pid
    && t.client[i].pid !in t.running && t.client[i].childdone == 0
  }

  /** This move is a hang-up of this descriptor. */
  predicate HangsUp(m: Move, fd: int) {
    m.Hear? && fd in m.got && m.got[fd].HangUp?
  }

  lemma ActRests(cfg: Config, w: Purpose, t: Tables, j: nat, pid: int, i: nat, line: CStr)
    requires Kept(cfg, t) && Safe(cfg, t) && Rests(t, i, line) && j < |t.client| && MayAct(cfg, w, t, j, pid, true)
    requires InputOf(w, t.client[i]) != Some(HangUp)
    ensures var r := Act(cfg, w, t, j, pid);
            r.Done? ==> Rests(r.value, i, line) && r.value.client[i] == t.client[i]
  {
    hide Act, Kept, TableSound, Rests;
    if j == i {
      RestsIdle(cfg, w, t, i, pid, line);
    } else {
      RestsApart(cfg, t, i, j, line);
      OthersRest(cfg, w, t, j, pid, i, line);
    }
  }

  /** The loop finds nothing to do at the client's own slot. */
  lemma RestsIdle(cfg: Config, w: Purpose, t: Tables, i: nat, pid: int, line: CStr)
    requires Rests(t, i, line) && MayAct(cfg, w, t, i, pid, true) && InputOf(w, t.client[i]) != Some(HangUp)
    ensures var r := Act(cfg, w, t, i, pid); r.Done? ==> r.value == t
  {
    hide Tried, ChoiceFor;
  }

  lemma RestsApart(cfg: Config, t: Tables, i: nat, j: nat, line: CStr)
    requires Kept(cfg, t) && Rests(t, i, line) && j < |t.client| && j != i
    ensures t.client[j].pid != t.client[i].pid
  {
    hide SlotFine, PastFine;
  }

  lemma OthersRest(cfg: Config, w: Purpose, t: Tables, j: nat, pid: int, i: nat, line: CStr)
    requires OneLine(t.held) && Rests(t, i, line) && j < |t.client| && j != i && t.client[j].pid != t.client[i].pid
    requires MayAct(cfg, w, t, j, pid, true)
    ensures var r := Act(cfg, w, t, j, pid);
            r.Done? ==> Rests(r.value, i, line) && r.value.client[i] == t.client[i]
  {
    hide ChoiceFor, Complaint, Polite;
    if Turn(w, t, j).Some? {
      WithoutOneLine(t.held, t.client[j].pid);
      TakesFreeLine(cfg, Turn(w, t, j).value, j, pid);
    }
  }

  lemma {:induction false} SweepRests(cfg: Config, w: Purpose, t: Tables, pids: seq<int>, n: nat, i: nat, line: CStr)
    requires Kept(cfg, t) && Safe(cfg, t) && Rests(t, i, line) && n <= |t.client| && MaySweep(cfg, w, t, pids, n, true)
    requires InputOf(w, t.client[i]) != Some(HangUp)
    ensures var r := Sweep(cfg, w, t, pids, n);
            r.Done? ==> Rests(r.value, i, line) && r.value.client[i] == t.client[i]
  {
    hide Act, MayAct, Kept, Safe, InputOf;
    if n > 0 {
      SweepRests(cfg, w, t, pids, n - 1, i, line);
      SweepKept(cfg, w, t, pids, n - 1);
      MaySweepAnyway(cfg, w, t, pids, n - 1);
      SweepSafe(cfg, w, t, pids, n - 1);
      if Sweep(cfg, w, t, pids, n - 1).Done? {
        ActRests(cfg, w, Sweep(cfg, w, t, pids, n - 1).value, n - 1, PidAt(pids, n - 1), i, line);
      }
    }
  }

  /** A device whose child has ended, in success or by a signal, stays locked for its client in a
      polite run until that client hangs up. */
  lemma StaysLocked(cfg: Config, t: Tables, m: Move, i: nat, line: CStr)
    requires Good(cfg, t) && Harmless(cfg) && May(cfg, t, m, true) && Rests(t, i, line) && !HangsUp(m, t.client[i].fd)
    ensures var r := Apply(cfg, t, m); r.Done? ==> Rests(r.value, i, line) && r.value.client[i].fd == t.client[i].fd
  {
    hide Sweep, MaySweep, Kept, Safe, Settled;
    match m
    case Exit(pid, exited, stat) =>
      KeptSized(cfg, t);
      var k := ChildSlot(t, pid);
      assert k != i;
    case Settle(pids) =>
      FlagKept(cfg, t);
      SafeFlag(cfg, t);
      SweepRests(cfg, Settling, t.(flag := false), pids, t.maxi + 1, i, line);
    case Arrive(fd, uid) => JoinedRests(cfg, t, fd, uid, i, line);
    case Hear(got, pids) => SweepRests(cfg, Reading(got), t, pids, t.maxi + 1, i, line);
  }

  lemma SafeFlag(cfg: Config, t: Tables)
    requires Safe(cfg, t)
    ensures Safe(cfg, t.(flag := false))
  {
    hide TableSound;
    SameFds(cfg, t, t.(flag := false));
  }

  lemma JoinedRests(cfg: Config, t: Tables, fd: int, uid: int, i: nat, line: CStr)
    requires Rests(t, i, line)
    ensures var u := Joined(cfg, t, fd, uid); Rests(u, i, line) && u.client[i] == t.client[i]
  {
    assert i != FreeSlot(t.client);
    assert Roomy(t.client, cfg.fill)[i] == t.client[i];
  }

  // ---- Without the protocol ----

  /** A hang-up gives up exactly the line that the slot's pid holds; that is the line of a running
      child if and only if the slot's pid is that of one and holds a line. */
  lemma HangUpFrees(cfg: Config, t: Tables, i: nat, got: map<int, Input>, pid: int)
    requires Safe(cfg, t) && i < |t.client| && InputOf(Reading(got), t.client[i]) == Some(HangUp)
    ensures var r := Act(cfg, Reading(got), t, i, pid);
            && r.Done? && r.value.running == t.running && r.value.held == Without(t.held, t.client[i].pid)
            && ((exists l :: l in t.held && l !in r.value.held && t.held[l] in r.value.running)
                <==> (t.client[i].pid in t.running && exists l :: l in t.held && t.held[l] == t.client[i].pid))
  {
  }

  /** A second request on a connection whose child runs: if it starts another child, the exit of
      the first one makes the server quit, since no slot remembers it; otherwise the exit is noted. */
  lemma SecondRequest(cfg: Config, t: Tables, i: nat, got: map<int, Input>, pid: int, stat: nat)
    requires Safe(cfg, t) && i < |t.client|
    requires InputOf(Reading(got), t.client[i]).Some? && InputOf(Reading(got), t.client[i]).value.Ask?
    requires forall k | 0 <= k < |t.client| && k != i :: t.client[k].pid != t.client[i].pid
    requires pid != t.client[i].pid
    ensures var r := Act(cfg, Reading(got), t, i, pid);
            r.Done? ==>
              (Noted(r.value, t.client[i].pid, true, stat).Fail?
               <==> ChoiceFor(cfg, t.held, Turn(Reading(got), t, i).value.client[i]).Dial?)
  {
    hide ChoiceFor, Complaint;
    var r := Act(cfg, Reading(got), t, i, pid);
    if r.Done? {
      assert r.value.client == t.client[i := r.value.client[i]];
      assert forall k | 0 <= k < |t.client| && k != i :: r.value.client[k] == t.client[k];
      var k := SlotOf(r.value.client, t.client[i].pid);
    }
  }

  /** A hang-up while the child runs leaves the child's pid behind in a free slot; its failure is
      then noted there, and the next connection takes the slot with it. */
  lemma EarlyHangUp(cfg: Config, t: Tables, i: nat, got: map<int, Input>, pid: int, stat: nat, fd: int, uid: int)
    requires Safe(cfg, t) && i < |t.client| && InputOf(Reading(got), t.client[i]) == Some(HangUp) && fd >= 0 && stat > 0
    requires forall k | 0 <= k < i :: IsLive(t.client[k]) && t.client[k].pid != t.client[i].pid
    ensures var r := Act(cfg, Reading(got), t, i, pid);
            && r.Done?
            && var s := Noted(r.value, t.client[i].pid, true, stat);
            && s.Done?
            && var u := Joined(cfg, s.value, fd, uid);
            && i < |u.client| && u.client[i].fd == fd && u.conn[i].request.None? && HasFailed(u.client[i])
  {
    hide Without, SlotOf, FreeSlot;
    var c := t.client[i];
    var r := Act(cfg, Reading(got), t, i, pid).value;
    assert r.client == t.client[i := c.(fd := -1)];
    SlotOfIs(r.client, c.pid, i);
    var s := Noted(r, c.pid, true, stat).value;
    assert s.client == t.client[i := c.(fd := -1, childdone := stat + 1)];
    FreeSlotIs(s.client, i);
    assert Roomy(s.client, cfg.fill)[i] == s.client[i];
  }

  /** child_done starts a child for a connection that has asked for nothing if and only if its slot
      came with the status of a failed child and the search for what the slot last held succeeds. */
  lemma DialsForStranger(cfg: Config, t: Tables, i: nat, pid: int)
    requires Safe(cfg, t) && i < |t.client| && IsLive(t.client[i]) && t.conn[i].request.None?
    ensures var r := Act(cfg, Settling, t, i, pid);
            (r.Done? && r.value.conn[i].forks > t.conn[i].forks)
            <==> (HasFailed(t.client[i]) && ChoiceFor(cfg, Without(t.held, t.client[i].pid), t.client[i]).Dial?)
  {
    hide Choose, Without, Complaint;
  }
}
