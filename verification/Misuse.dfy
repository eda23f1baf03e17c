/** Runs of the dialer server, from its start, in which clients do not keep the protocol, or in
    which the server's slots hold what they should not, and what comes of it. */
module Misuse {
  import opened Records
  import opened Systems
  import opened LockTable
  import opened Search
  import opened Dialer
  import opened Protocol
  import opened Server

  /** From its start these moves may happen, in the order of the server's loop, and lead here. */
  ghost predicate Leads(cfg: Config, moves: seq<Move>, t: Tables) {
    && MayRun(cfg, Start(cfg), moves, false) && InOrder(cfg, Start(cfg), moves)
    && Run(cfg, Start(cfg), moves) == Done(t)
    && Sized(t)
  }

  /** From here one more move may happen, and leads there. */
  ghost predicate Follows(cfg: Config, t: Tables, m: Move, r: Outcome<Tables>) {
    Sized(t) && May(cfg, t, m, false) && (t.flag ==> m.Settle?) && Apply(cfg, t, m) == r
  }

  lemma LeadsStart(cfg: Config)
    ensures Leads(cfg, [], Start(cfg))
  {
  }

  lemma LeadsOn(cfg: Config, moves: seq<Move>, t: Tables, m: Move, r: Outcome<Tables>)
    requires Leads(cfg, moves, t) && Follows(cfg, t, m, r)
    ensures r.Done? ==> Leads(cfg, moves + [m], r.value)
    ensures MayRun(cfg, Start(cfg), moves + [m], false) && InOrder(cfg, Start(cfg), moves + [m])
    ensures Run(cfg, Start(cfg), moves + [m]) == r
  {
    hide Apply, May, Run, MayRun, InOrder;
    RunOn(cfg, Start(cfg), moves, m);
  }

  // ---- Passes that do something at one slot only ----

  /** A pass does nothing at this slot. */
  predicate IdleAt(w: Purpose, c: Client) {
    InputOf(w, c).None? && !(w.Settling? && IsLive(c) && c.childdone != 0)
  }

  lemma IdleActs(cfg: Config, w: Purpose, t: Tables, i: nat, pid: int)
    requires Sized(t) && i < |t.client| && IdleAt(w, t.client[i])
    ensures Act(cfg, w, t, i, pid) == Done(t) && MayAct(cfg, w, t, i, pid, false)
  {
    hide Tried, ChoiceFor;
  }

  lemma ActsAlone(cfg: Config, w: Purpose, t: Tables, i: nat, pid: int)
    requires Sized(t) && i < |t.client|
    ensures var r := Act(cfg, w, t, i, pid); r.Done? ==> forall k | 0 <= k < |t.client| && k != i ::
              r.value.client[k] == t.client[k]
  {
    hide ChoiceFor, Without, Complaint;
    var r := Act(cfg, w, t, i, pid);
    if r.Done? {
      assert r.value.client == t.client[i := r.value.client[i]];
    }
  }

  lemma {:induction false} SweepNone(cfg: Config, w: Purpose, t: Tables, pids: seq<int>, n: nat)
    requires Sized(t) && n <= |t.client| && forall k | 0 <= k < n :: IdleAt(w, t.client[k])
    ensures Sweep(cfg, w, t, pids, n) == Done(t) && MaySweep(cfg, w, t, pids, n, false)
  {
    hide Act, MayAct, IdleAt;
    if n > 0 {
      SweepNone(cfg, w, t, pids, n - 1);
      IdleActs(cfg, w, t, n - 1, PidAt(pids, n - 1));
    }
  }

  lemma {:induction false} SweepOnly(cfg: Config, w: Purpose, t: Tables, pids: seq<int>, n: nat, i: nat)
    requires Sized(t) && i < n <= |t.client| && forall k | 0 <= k < n && k != i :: IdleAt(w, t.client[k])
    ensures Sweep(cfg, w, t, pids, n) == Act(cfg, w, t, i, PidAt(pids, i))
    ensures MayAct(cfg, w, t, i, PidAt(pids, i), false) ==> MaySweep(cfg, w, t, pids, n, false)
  {
    hide Act, MayAct, IdleAt;
    if n == i + 1 {
      SweepNone(cfg, w, t, pids, i);
    } else {
      SweepOnly(cfg, w, t, pids, n - 1, i);
      ActsAlone(cfg, w, t, i, PidAt(pids, i));
      var r := Act(cfg, w, t, i, PidAt(pids, i));
      if r.Done? {
        IdleActs(cfg, w, r.value, n - 1, PidAt(pids, n - 1));
      }
    }
  }

  // ---- Two clients ----

  /** A search made for the first time, with these lines held. */
  function First(cfg: Config, held: map<CStr, int>, sysname: CStr, speed: CStr): Choice {
    Choose(Query(cfg.file, cfg.devices, held, sysname, speed), 0, 0, NoMsg)
  }

  /** The slot of a client whose first search has succeeded. */
  function Dialing(c: Client, sysname: CStr, speed: CStr, choice: Choice, pid: int): Client
    requires choice.Dial?
  {
    WithRequest(c, sysname, speed).(sysftell := choice.pos, foundone := choice.found, pid := pid)
  }

  /** A connection comes to slot 0. */
  lemma ArrivesFirst(cfg: Config, t: Tables, fd: int, uid: int)
    requires Sized(t) && !t.flag && fd >= 0 && fd !in t.allset
    requires |t.client| > 1 ==> t.client[0].fd == -1
    requires |t.client| <= 1 ==> t.client == []
    ensures var u := Joined(cfg, t, fd, uid);
            && Follows(cfg, t, Arrive(fd, uid), Done(u))
            && |u.client| > 1 && |u.conn| == |u.client|
            && u.client[0] == (if t.client == [] then cfg.fill else t.client[0]).(fd := fd, uid := uid)
            && u.client[1] == (if t.client == [] then cfg.fill.(fd := -1) else t.client[1])
            && u.conn[0] == NewConn(t.arrivals) && (t.client != [] ==> u.conn[1] == t.conn[1])
            && (forall k | 1 < k < |u.client| :: u.client[k] == if t.client == [] then cfg.fill.(fd := -1)
                else t.client[k])
            && u.maxi == Max(0, t.maxi) && u.allset == t.allset + {fd}
            && u.held == t.held && u.running == t.running && u.sent == t.sent && u.flag == t.flag
            && u.arrivals == t.arrivals + 1
  {
    if t.client != [] {
      FreeSlotIs(t.client, 0);
    }
    var room := Roomy(t.client, cfg.fill);
    var u := Joined(cfg, t, fd, uid);
    assert u.client == room[0 := room[0].(fd := fd, uid := uid)];
  }

  /** Another comes to slot 1. */
  lemma ArrivesSecond(cfg: Config, t: Tables, fd: int, uid: int)
    requires Sized(t) && !t.flag && fd >= 0 && fd !in t.allset
    requires |t.client| > 1 && t.client[0].fd != -1 && t.client[1].fd == -1
    ensures var u := Joined(cfg, t, fd, uid);
            && Follows(cfg, t, Arrive(fd, uid), Done(u))
            && Sized(u) && |u.client| == |t.client| && u.client[0] == t.client[0] && u.conn[0] == t.conn[0]
            && u.client[1] == t.client[1].(fd := fd, uid := uid) && u.conn[1] == NewConn(t.arrivals)
            && u.maxi == Max(1, t.maxi) && u.allset == t.allset + {fd}
            && u.held == t.held && u.running == t.running && u.sent == t.sent && u.flag == t.flag
            && u.arrivals == t.arrivals + 1
  {
    FreeSlotIs(t.client, 1);
  }

  /** Client i sends a request, the only one to be read, and a child is forked for it. */
  lemma Asks(cfg: Config, t: Tables, i: nat, sysname: CStr, speed: CStr, pids: seq<int>)
    requires Sized(t) && !t.flag && i <= t.maxi <= 1 && IsLive(t.client[i])
    requires t.maxi == 1 ==> t.client[1 - i].fd != t.client[i].fd
    requires First(cfg, t.held, sysname, speed).Dial? ==> FreshPid(t.held, PidAt(pids, i))
    ensures var c, pid := First(cfg, t.held, sysname, speed), PidAt(pids, i);
            var m := Hear(map[t.client[i].fd := Ask(sysname, speed)], pids);
            && Follows(cfg, t, m, Apply(cfg, t, m))
            && (c.Broken? <==> Apply(cfg, t, m).Fail?)
            && (c.Dial? ==>
                  var u := Apply(cfg, t, m).value;
                  && |u.client| == |t.client| && u.conn == t.conn[i := u.conn[i]] && u.maxi == t.maxi
                  && u.client == t.client[i := Dialing(t.client[i], sysname, speed, c, pid)]
                  && u.conn[i] == t.conn[i].(request := Some((sysname, speed)), forks := t.conn[i].forks + 1)
                  && u.held == t.held[c.line := pid] && u.running == t.running + {pid}
                  && u.allset == t.allset && u.sent == t.sent && u.flag == t.flag && u.arrivals == t.arrivals)
            && (c.NoDevice? || c.Exhausted? ==>
                  var u := Apply(cfg, t, m).value;
                  && |u.client| == |t.client| && u.client == t.client[i := u.client[i]]
                  && u.client[i].pid == t.client[i].pid && u.flag == t.flag)
  {
    hide Tried, Turn, First, FreshPid, Act, MayAct;
    var w := Reading(map[t.client[i].fd := Ask(sysname, speed)]);
    SweepOnly(cfg, w, t, pids, t.maxi + 1, i);
    AskTurn(cfg, w, t, i, sysname, speed, PidAt(pids, i));
    TriedFirst(cfg, t, i, sysname, speed, PidAt(pids, i));
  }

  lemma AskTurn(cfg: Config, w: Purpose, t: Tables, i: nat, sysname: CStr, speed: CStr, pid: int)
    requires Sized(t) && i < |t.client| && InputOf(w, t.client[i]) == Some(Ask(sysname, speed))
    requires First(cfg, t.held, sysname, speed).Dial? ==> FreshPid(t.held, pid)
    ensures Act(cfg, w, t, i, pid) == Tried(cfg, Asked(t, i, sysname, speed), i, pid)
            && MayAct(cfg, w, t, i, pid, false)
  {
    hide Tried, Choose, FreshPid;
  }

  lemma TriedFirst(cfg: Config, t: Tables, i: nat, sysname: CStr, speed: CStr, pid: int)
    requires Sized(t) && i < |t.client|
    ensures var c, r := First(cfg, t.held, sysname, speed), Tried(cfg, Asked(t, i, sysname, speed), i, pid);
            && (c.Broken? <==> r.Fail?)
            && (c.Dial? ==>
                  var u := r.value;
                  && |u.client| == |t.client| && u.conn == t.conn[i := u.conn[i]] && u.maxi == t.maxi
                  && u.client == t.client[i := Dialing(t.client[i], sysname, speed, c, pid)]
                  && u.conn[i] == t.conn[i].(request := Some((sysname, speed)), forks := t.conn[i].forks + 1)
                  && u.held == t.held[c.line := pid] && u.running == t.running + {pid}
                  && u.allset == t.allset && u.sent == t.sent && u.flag == t.flag && u.arrivals == t.arrivals)
            && (c.NoDevice? || c.Exhausted? ==>
                  var u := r.value;
                  && |u.client| == |t.client| && u.client == t.client[i := u.client[i]]
                  && u.client[i].pid == t.client[i].pid && u.flag == t.flag)
  {
    hide Choose, Complaint;
  }

  /** Client i hangs up, the only one to be read. */
  lemma HangsUp(cfg: Config, t: Tables, i: nat)
    requires Sized(t) && !t.flag && i <= t.maxi <= 1 && IsLive(t.client[i])
    requires t.maxi == 1 ==> t.client[1 - i].fd != t.client[i].fd
    ensures var m, u := Hear(map[t.client[i].fd := HangUp], []),
                        Closed(t.(held := Without(t.held, t.client[i].pid)), i, t.client[i], false);
            Follows(cfg, t, m, Done(u))
  {
    hide ChoiceFor, Without;
    var w := Reading(map[t.client[i].fd := HangUp]);
    SweepOnly(cfg, w, t, [], t.maxi + 1, i);
  }

  /** child_done finds nothing to do. */
  lemma SettlesNothing(cfg: Config, t: Tables)
    requires Sized(t) && t.maxi <= 1
    requires forall k | 0 <= k <= t.maxi :: !IsLive(t.client[k]) || t.client[k].childdone == 0
    ensures Follows(cfg, t, Settle([]), Done(t.(flag := false)))
  {
    SweepNone(cfg, Settling, t.(flag := false), [], t.maxi + 1);
  }

  // ---- Hanging up while the child runs ----

  /** The first two moves of a client that asks for a system. */
  function Opening(fd: int, uid: int, sysname: CStr, speed: CStr, pid: int): seq<Move> {
    [Arrive(fd, uid), Hear(map[fd := Ask(sysname, speed)], [pid])]
  }

  lemma Opens(cfg: Config, fd: int, uid: int, sysname: CStr, speed: CStr, pid: int) returns (t: Tables)
    requires fd >= 0 && fd != cfg.listenfd && pid > 0 && First(cfg, map[], sysname, speed).Dial?
    ensures Leads(cfg, Opening(fd, uid, sysname, speed, pid), t)
    ensures var c := First(cfg, map[], sysname, speed);
            && Sized(t) && |t.client| > 1 && t.maxi == 0 && t.held == map[c.line := pid] && t.running == {pid}
            && !t.flag
            && IsLive(t.client[0]) && t.client[0].fd == fd && t.client[0].pid == pid
            && t.conn[0] == Conn(0, Some((sysname, speed)), 1, 0, false)
            && t.client[1].fd == -1 && t.allset == {cfg.listenfd, fd}
            && (forall k | 0 < k < |t.client| :: t.client[k].pid == cfg.fill.pid)
  {
    hide First, Choose, Leads, Follows, Joined, Apply;
    LeadsStart(cfg);
    var t0 := Start(cfg);
    ArrivesFirst(cfg, t0, fd, uid);
    var t1 := Joined(cfg, t0, fd, uid);
    LeadsOn(cfg, [], t0, Arrive(fd, uid), Done(t1));
    var m := Hear(map[fd := Ask(sysname, speed)], [pid]);
    Asks(cfg, t1, 0, sysname, speed, [pid]);
    LeadsOn(cfg, [] + [Arrive(fd, uid)], t1, m, Apply(cfg, t1, m));
    t := Apply(cfg, t1, m).value;
    assert [] + [Arrive(fd, uid)] + [m] == Opening(fd, uid, sysname, speed, pid);
  }

  /** A client that hangs up while the child dials for it: the child runs on, and nobody holds its line. */
  lemma HangUpWhileDialing(cfg: Config, fd: int, uid: int, sysname: CStr, speed: CStr, pid: int) returns (t: Tables)
    requires fd >= 0 && fd != cfg.listenfd && pid > 0 && First(cfg, map[], sysname, speed).Dial?
    ensures Leads(cfg, Opening(fd, uid, sysname, speed, pid) + [Hear(map[fd := HangUp], [])], t)
    ensures t.held == map[] && t.running == {pid} && |t.client| > 0 && t.client[0].fd == -1
  {
    hide First, Choose, Leads, Follows, Run, MayRun, InOrder, Opening;
    var u := Opens(cfg, fd, uid, sysname, speed, pid);
    HangsUp(cfg, u, 0);
    t := Closed(u.(held := Without(u.held, u.client[0].pid)), 0, u.client[0], false);
    LeadsOn(cfg, Opening(fd, uid, sysname, speed, pid), u, Hear(map[fd := HangUp], []), Done(t));
    assert t.held == map[];
  }

  // ---- A second request ----

  /** A second request while the child runs: the exit of the first child makes the server quit if and
      only if the second request dials too. */
  lemma AsksTwice(cfg: Config, fd: int, uid: int, s1: CStr, sp1: CStr, s2: CStr, sp2: CStr, p1: int, p2: int, stat: nat)
    returns (t: Tables)
    requires fd >= 0 && fd != cfg.listenfd && p1 > 0 && p2 > 0 && p1 != p2 && Harmless(cfg)
    requires First(cfg, map[], s1, sp1).Dial?
    requires !First(cfg, map[First(cfg, map[], s1, sp1).line := p1], s2, sp2).Broken?
    ensures Leads(cfg, Opening(fd, uid, s1, sp1, p1) + [Hear(map[fd := Ask(s2, sp2)], [p2])], t)
    ensures Sized(t) && p1 in t.running && Follows(cfg, t, Exit(p1, true, stat), Noted(t, p1, true, stat))
    ensures Noted(t, p1, true, stat).Fail? <==> First(cfg, map[First(cfg, map[], s1, sp1).line := p1], s2, sp2).Dial?
  {
    hide First, Choose, Leads, Follows, Run, MayRun, InOrder, Opening, Apply;
    var u := Opens(cfg, fd, uid, s1, sp1, p1);
    var m := Hear(map[fd := Ask(s2, sp2)], [p2]);
    FreshBesides(First(cfg, map[], s1, sp1).line, p1, p2);
    Asks(cfg, u, 0, s2, sp2, [p2]);
    LeadsOn(cfg, Opening(fd, uid, s1, sp1, p1), u, m, Apply(cfg, u, m));
    t := Apply(cfg, u, m).value;
    StillRuns(cfg, u, 0, map[fd := Ask(s2, sp2)], [p2]);
    ExitFollows(cfg, t, Exit(p1, true, stat));
    if First(cfg, u.held, s2, sp2).Dial? {
      assert forall k | 0 <= k < |t.client| :: t.client[k].pid != p1;
      assert SlotOf(t.client, p1) == |t.client|;
    } else {
      SlotOfIs(t.client, p1, 0);
    }
  }

  lemma FreshBesides(line: CStr, pid: int, other: int)
    requires other > 0 && other != pid
    ensures FreshPid(map[line := pid], other)
  {
  }

  lemma ExitFollows(cfg: Config, t: Tables, m: Move)
    requires Sized(t) && m.Exit?
    ensures !t.flag ==> Follows(cfg, t, m, Noted(t, m.pid, m.exited, m.stat))
  {
  }

  /** Reading from clients ends no child. */
  lemma StillRuns(cfg: Config, t: Tables, i: nat, got: map<int, Input>, pids: seq<int>)
    requires Sized(t) && i == t.maxi == 0
    ensures var r := Apply(cfg, t, Hear(got, pids)); r.Done? ==> t.running <= r.value.running
  {
    hide ChoiceFor, Complaint, Without;
    assert Sweep(cfg, Reading(got), t, pids, 1) == Act(cfg, Reading(got), t, 0, PidAt(pids, 0)) by {
      assert Sweep(cfg, Reading(got), t, pids, 0) == Done(t);
    }
  }

  // ---- Two clients ----

  lemma BothArrive(cfg: Config, fdA: int, fdB: int, uid: int) returns (t: Tables)
    requires fdA >= 0 && fdB >= 0 && fdA != fdB && cfg.listenfd !in {fdA, fdB}
    ensures Leads(cfg, [Arrive(fdA, uid), Arrive(fdB, uid)], t)
    ensures Sized(t) && |t.client| > 1 && t.maxi == 1 && t.held == map[] && t.running == {} && !t.flag && t.sent == []
    ensures t.client[0] == cfg.fill.(fd := fdA, uid := uid) && t.client[1] == cfg.fill.(fd := fdB, uid := uid)
    ensures t.conn[0] == NewConn(0) && t.conn[1] == NewConn(1) && t.arrivals == 2
    ensures t.allset == {cfg.listenfd, fdA, fdB}
  {
    hide Leads, Follows, Joined, Apply;
    LeadsStart(cfg);
    var t0 := Start(cfg);
    ArrivesFirst(cfg, t0, fdA, uid);
    var t1 := Joined(cfg, t0, fdA, uid);
    LeadsOn(cfg, [], t0, Arrive(fdA, uid), Done(t1));
    ArrivesSecond(cfg, t1, fdB, uid);
    t := Joined(cfg, t1, fdB, uid);
    LeadsOn(cfg, [] + [Arrive(fdA, uid)], t1, Arrive(fdB, uid), Done(t));
    assert [] + [Arrive(fdA, uid)] + [Arrive(fdB, uid)] == [Arrive(fdA, uid), Arrive(fdB, uid)];
  }

  /** The exit of a child is noted at slot i, the first that remembers its pid. */
  lemma ExitsAt(cfg: Config, t: Tables, i: nat, pid: int, stat: nat)
    requires Sized(t) && !t.flag && i < |t.client| && t.client[i].pid == pid && forall k | 0 <= k < i ::
               t.client[k].pid != pid
    ensures var q := t.conn[i];
            Follows(cfg, t, Exit(pid, true, stat),
                    Done(t.(flag := true, running := t.running - {pid},
                            client := t.client[i := t.client[i].(childdone := stat + 1)],
                            conn := t.conn[i := q.(ends := q.ends + 1, ok := q.ok || stat == 0)])))
  {
    SlotOfIs(t.client, pid, i);
  }

  /** child_done clears the status of a successful child at slot 0, and there is nothing else to do. */
  lemma SettlesSuccess(cfg: Config, t: Tables)
    requires Sized(t) && t.maxi == 1 && IsLive(t.client[0]) && t.client[0].childdone == 1
    requires !IsLive(t.client[1]) || t.client[1].childdone == 0
    ensures Follows(cfg, t, Settle([]), Done(t.(flag := false, client := t.client[0 := t.client[0].(childdone := 0)])))
  {
    hide Tried, ChoiceFor;
    SweepOnly(cfg, Settling, t.(flag := false), [], 2, 0);
  }

  // ---- A pid that a free slot remembers ----

  /** One polite client comes, is served, and goes; its slot remembers its child. */
  lemma ComesAndGoes(cfg: Config, fdA: int, fdB: int, uid: int, sysname: CStr, speed: CStr, p: int)
    returns (moves: seq<Move>, t: Tables)
    requires fdA >= 0 && fdB >= 0 && fdA != fdB && cfg.listenfd !in {fdA, fdB} && p > 0 && Harmless(cfg)
    requires First(cfg, map[], sysname, speed).Dial?
    ensures moves == [Arrive(fdA, uid), Arrive(fdB, uid), Hear(map[fdA := Ask(sysname, speed)], [p]), Exit(p, true, 0),
                      Settle([]), Hear(map[fdA := HangUp], [])]
    ensures Leads(cfg, moves, t)
    ensures Sized(t) && |t.client| > 1 && t.maxi == 1 && !t.flag && t.held == map[] && t.running == {} && t.sent == []
    ensures t.client[0].fd == -1 && t.client[0].pid == p && t.client[0].childdone == 0
    ensures t.client[1] == cfg.fill.(fd := fdB, uid := uid) && t.conn[1] == NewConn(1)
    ensures t.allset == {cfg.listenfd, fdB}
  {
    hide First, Choose, Leads, Follows, Apply, FreshPid, Without;
    var t2 := BothArrive(cfg, fdA, fdB, uid);
    var ms := [Arrive(fdA, uid), Arrive(fdB, uid)];
    FreshInNone(p);
    Asks(cfg, t2, 0, sysname, speed, [p]);
    var m3 := Hear(map[fdA := Ask(sysname, speed)], [p]);
    var t3 := Apply(cfg, t2, m3).value;
    LeadsOn(cfg, ms, t2, m3, Done(t3));
    ExitsAt(cfg, t3, 0, p, 0);
    var q := t3.conn[0];
    var t4 := t3.(flag := true, running := t3.running - {p}, client := t3.client[0 := t3.client[0].(childdone := 1)],
                  conn := t3.conn[0 := q.(ends := q.ends + 1, ok := true)]);
    LeadsOn(cfg, ms + [m3], t3, Exit(p, true, 0), Done(t4));
    SettlesSuccess(cfg, t4);
    var t5 := t4.(flag := false, client := t4.client[0 := t4.client[0].(childdone := 0)]);
    LeadsOn(cfg, ms + [m3] + [Exit(p, true, 0)], t4, Settle([]), Done(t5));
    HangsUp(cfg, t5, 0);
    var m6 := Hear(map[fdA := HangUp], []);
    t := Closed(t5.(held := Without(t5.held, p)), 0, t5.client[0], false);
    LeadsOn(cfg, ms + [m3] + [Exit(p, true, 0)] + [Settle([])], t5, m6, Done(t));
    moves := ms + [m3] + [Exit(p, true, 0)] + [Settle([])] + [m6];
    OnlyLine(First(cfg, map[], sysname, speed).line, p);
  }

  /** What comes of it when fork() returns that pid again for a client in a later slot: the failure
      of the new child is noted in the free slot. Its client stays for good, with a line that nobody
      uses, no child, and no answer, though every client here keeps the protocol. */
  lemma PidRemembered(cfg: Config, fdA: int, fdB: int, uid: int, s1: CStr, sp1: CStr, s2: CStr, sp2: CStr, p: int,
                      stat: nat)
    returns (moves: seq<Move>, t: Tables)
    requires fdA >= 0 && fdB >= 0 && fdA != fdB && cfg.listenfd !in {fdA, fdB} && p > 0 && stat > 0 && Harmless(cfg)
    requires First(cfg, map[], s1, sp1).Dial? && First(cfg, map[], s2, sp2).Dial?
    ensures moves == [Arrive(fdA, uid), Arrive(fdB, uid), Hear(map[fdA := Ask(s1, sp1)], [p]), Exit(p, true, 0),
                      Settle([]), Hear(map[fdA := HangUp], []), Hear(map[fdB := Ask(s2, sp2)], [0, p]),
                      Exit(p, true, stat), Settle([])]
    ensures Leads(cfg, moves, t)
    ensures |t.client| > 1 && |t.conn| > 1 && t.client[1].fd == fdB && Serving(t.client[1], t.conn[1])
    ensures !t.flag && t.running == {} && t.client[1].childdone == 0 && t.sent == []
    ensures t.held == map[First(cfg, map[], s2, sp2).line := p] && t.client[1].pid == p
    ensures t.client[0].fd == -1 && t.client[0].childdone == stat + 1
  {
    hide First, Choose, Leads, Follows, Apply, FreshPid, Without;
    var ms, t6 := ComesAndGoes(cfg, fdA, fdB, uid, s1, sp1, p);
    FreshInNone(p);
    var m7 := Hear(map[fdB := Ask(s2, sp2)], [0, p]);
    Asks(cfg, t6, 1, s2, sp2, [0, p]);
    var t7 := Apply(cfg, t6, m7).value;
    LeadsOn(cfg, ms, t6, m7, Done(t7));
    ExitsAt(cfg, t7, 0, p, stat);
    var q := t7.conn[0];
    var t8 := t7.(flag := true, running := t7.running - {p},
                  client := t7.client[0 := t7.client[0].(childdone := stat + 1)],
                  conn := t7.conn[0 := q.(ends := q.ends + 1, ok := q.ok || stat == 0)]);
    LeadsOn(cfg, ms + [m7], t7, Exit(p, true, stat), Done(t8));
    SettlesNothing(cfg, t8);
    t := t8.(flag := false);
    LeadsOn(cfg, ms + [m7] + [Exit(p, true, stat)], t8, Settle([]), Done(t));
    moves := ms + [m7] + [Exit(p, true, stat)] + [Settle([])];
  }

  /** And what comes of it when the next connection in the free slot hangs up without a request: the
      line of the other client's child is given up while the child dials. */
  lemma LineGivenAway(cfg: Config, fdA: int, fdB: int, fdC: int, uid: int, s1: CStr, sp1: CStr, s2: CStr, sp2: CStr,
                      p: int)
    returns (moves: seq<Move>, t: Tables)
    requires fdA >= 0 && fdB >= 0 && fdC >= 0 && fdB !in {fdA, fdC} && cfg.listenfd !in {fdA, fdB, fdC} && p > 0
    requires Harmless(cfg) && First(cfg, map[], s1, sp1).Dial? && First(cfg, map[], s2, sp2).Dial?
    ensures moves == [Arrive(fdA, uid), Arrive(fdB, uid), Hear(map[fdA := Ask(s1, sp1)], [p]), Exit(p, true, 0),
                      Settle([]), Hear(map[fdA := HangUp], []), Hear(map[fdB := Ask(s2, sp2)], [0, p]),
                      Arrive(fdC, uid), Hear(map[fdC := HangUp], [])]
    ensures Leads(cfg, moves, t)
    ensures |t.client| > 1 && |t.conn| > 1 && Serving(t.client[1], t.conn[1]) && t.client[1].pid == p
    ensures t.running == {p} && t.held == map[]
  {
    hide First, Choose, Leads, Follows, Apply, FreshPid, Without, Joined;
    var ms, t6 := ComesAndGoes(cfg, fdA, fdB, uid, s1, sp1, p);
    FreshInNone(p);
    var m7 := Hear(map[fdB := Ask(s2, sp2)], [0, p]);
    Asks(cfg, t6, 1, s2, sp2, [0, p]);
    var t7 := Apply(cfg, t6, m7).value;
    LeadsOn(cfg, ms, t6, m7, Done(t7));
    ArrivesFirst(cfg, t7, fdC, uid);
    var t8 := Joined(cfg, t7, fdC, uid);
    LeadsOn(cfg, ms + [m7], t7, Arrive(fdC, uid), Done(t8));
    HangsUp(cfg, t8, 0);
    t := Closed(t8.(held := Without(t8.held, p)), 0, t8.client[0], false);
    LeadsOn(cfg, ms + [m7] + [Arrive(fdC, uid)], t8, Hear(map[fdC := HangUp], []), Done(t));
    moves := ms + [m7] + [Arrive(fdC, uid)] + [Hear(map[fdC := HangUp], [])];
    OnlyLine(First(cfg, map[], s2, sp2).line, p);
  }

  /** In general: the exit of the child forked for slot i is noted there if and only if no earlier
      slot remembers its pid; otherwise it is noted at the first that does, and slot i never hears. */
  lemma NotedElsewhere(cfg: Config, t: Tables, i: nat, pid: int, stat: nat)
    requires Sized(t) && i < |t.client| && ChoiceFor(cfg, t.held, t.client[i]).Dial?
    ensures var u := Tried(cfg, t, i, pid).value;
            var r := Noted(u, pid, true, stat);
            var k := SlotOf(u.client, pid);
            && k <= i && r.Done? && |r.value.client| == |t.client|
            && r.value.client[k] == u.client[k].(childdone := stat + 1)
            && (k == i <==> forall j | 0 <= j < i :: t.client[j].pid != pid)
            && (k < i ==> r.value.client[i] == u.client[i])
  {
    hide ChoiceFor, Complaint;
    var u := Tried(cfg, t, i, pid).value;
    assert u.client[i].pid == pid && forall j | 0 <= j < i :: u.client[j] == t.client[j];
  }

  // ---- Statuses that should not be there ----

  /** child_done with a failure at slot i and a success at the other of slots 0 and 1. */
  lemma SettlesFailure(cfg: Config, t: Tables, i: nat, pids: seq<int>)
    requires Sized(t) && i <= 1 == t.maxi && HasFailed(t.client[i]) && IsLive(t.client[1 - i])
             && t.client[1 - i].childdone == 1
    requires var held := Without(t.held, t.client[i].pid);
             ChoiceFor(cfg, held, t.client[i]).Dial? ==> FreshPid(held, PidAt(pids, i))
    ensures var held, r := Without(t.held, t.client[i].pid), Apply(cfg, t, Settle(pids));
            var c := ChoiceFor(cfg, held, t.client[i]);
            && Follows(cfg, t, Settle(pids), r)
            && (c.Broken? <==> r.Fail?)
            && (r.Done? ==> |r.value.client| == |r.value.conn| == |t.client|)
            && (c.Dial? ==>
                  && r.value.conn == t.conn[i := t.conn[i].(forks := t.conn[i].forks + 1)]
                  && r.value.client[i].fd == t.client[i].fd && r.value.client[i].pid == PidAt(pids, i)
                  && r.value.held == held[c.line := PidAt(pids, i)] && r.value.sent == t.sent)
            && (c.NoDevice? || c.Exhausted? ==>
                  && r.value.conn == t.conn && r.value.client[i].fd == -1
                  && r.value.sent == t.sent + [(t.client[i].fd, Complaint(c))])
  {
    hide Tried, Turn, MayAct, Act, ChoiceFor, FreshPid, Without, Complaint, Sweep, MaySweep;
    var t0 := t.(flag := false);
    SweepTwo(cfg, Settling, t0, pids);
    if i == 0 {
      ActFails(cfg, t0, 0, PidAt(pids, 0));
      var r := Act(cfg, Settling, t0, 0, PidAt(pids, 0));
      if r.Done? {
        ActClears(cfg, r.value, 1, PidAt(pids, 1));
      }
    } else {
      ActClears(cfg, t0, 0, PidAt(pids, 0));
      var t1 := t0.(client := t0.client[0 := t0.client[0].(childdone := 0)]);
      ActFails(cfg, t1, 1, PidAt(pids, 1));
    }
  }

  /** A pass over slots 0 and 1. */
  lemma SweepTwo(cfg: Config, w: Purpose, t: Tables, pids: seq<int>)
    requires Sized(t) && |t.client| >= 2
    ensures var r := Act(cfg, w, t, 0, PidAt(pids, 0));
            && Sweep(cfg, w, t, pids, 2) == (if r.Fail? then Fail else Act(cfg, w, r.value, 1, PidAt(pids, 1)))
            && (MayAct(cfg, w, t, 0, PidAt(pids, 0), false)
                && (r.Done? ==> MayAct(cfg, w, r.value, 1, PidAt(pids, 1), false)) ==>
                  MaySweep(cfg, w, t, pids, 2, false))
  {
    hide Act, MayAct;
    assert Sweep(cfg, w, t, pids, 0) == Done(t) && MaySweep(cfg, w, t, pids, 0, false);
    assert Sweep(cfg, w, t, pids, 1) == Act(cfg, w, t, 0, PidAt(pids, 0));
    assert MaySweep(cfg, w, t, pids, 1, false) == MayAct(cfg, w, t, 0, PidAt(pids, 0), false);
  }

  lemma ActClears(cfg: Config, t: Tables, j: nat, pid: int)
    requires Sized(t) && j < |t.client| && IsLive(t.client[j]) && t.client[j].childdone == 1
    ensures Act(cfg, Settling, t, j, pid) == Done(t.(client := t.client[j := t.client[j].(childdone := 0)]))
    ensures MayAct(cfg, Settling, t, j, pid, false)
  {
  }

  lemma ActFails(cfg: Config, t: Tables, i: nat, pid: int)
    requires Sized(t) && i < |t.client| && HasFailed(t.client[i])
    ensures var held, r := Without(t.held, t.client[i].pid), Act(cfg, Settling, t, i, pid);
            var c := ChoiceFor(cfg, held, t.client[i]);
            && ((c.Dial? ==> FreshPid(held, pid)) ==> MayAct(cfg, Settling, t, i, pid, false))
            && (c.Broken? <==> r.Fail?)
            && (r.Done? ==>
                  && |r.value.client| == |r.value.conn| == |t.client| && r.value.maxi == t.maxi
                  && r.value.client == t.client[i := r.value.client[i]])
            && (c.Dial? ==>
                  && r.value.conn == t.conn[i := t.conn[i].(forks := t.conn[i].forks + 1)]
                  && r.value.client[i].fd == t.client[i].fd && r.value.client[i].pid == pid
                  && r.value.held == held[c.line := pid] && r.value.sent == t.sent)
            && (c.NoDevice? || c.Exhausted? ==>
                  && r.value.conn == t.conn && r.value.client[i].fd == -1
                  && r.value.sent == t.sent + [(t.client[i].fd, Complaint(c))])
  {
    hide Choose, Complaint, FreshPid, Without;
  }

  /** After an early hang-up the failure of the child waits in the free slot for the next connection
      there, which has asked for nothing. When child_done next runs, it searches on for what the
      first client wanted: if it finds a line it dials for the stranger, and otherwise it sends the
      stranger the error and ends its connection. */
  lemma StrangerServed(cfg: Config, fdA: int, fdB: int, fdC: int, uid: int, s1: CStr, sp1: CStr, s2: CStr, sp2: CStr,
                       p1: int, p2: int, p3: int, stat: nat)
    returns (moves: seq<Move>, t: Tables)
    requires fdA >= 0 && fdB >= 0 && fdC >= 0 && fdB !in {fdA, fdC} && cfg.listenfd !in {fdA, fdB, fdC}
    requires p1 > 0 && p2 > 0 && p3 > 0 && p2 !in {p1, p3} && stat > 0
    requires First(cfg, map[], s1, sp1).Dial? && First(cfg, map[First(cfg, map[], s1, sp1).line := p1], s2, sp2).Dial?
    ensures moves == [Arrive(fdA, uid), Arrive(fdB, uid), Hear(map[fdA := Ask(s1, sp1)], [p1]),
                      Hear(map[fdB := Ask(s2, sp2)], [0, p2]),
                      Hear(map[fdA := HangUp], []), Exit(p1, true, stat), Settle([]), Arrive(fdC, uid),
                      Exit(p2, true, 0)]
    ensures Leads(cfg, moves, t)
    ensures Sized(t) && |t.client| > 1 && t.client[0].fd == fdC && t.conn[0] == NewConn(2)
    ensures var a, b := First(cfg, map[], s1, sp1), First(cfg, map[First(cfg, map[], s1, sp1).line := p1], s2, sp2);
            var c := Choose(Query(cfg.file, cfg.devices, map[b.line := p2], s1, sp1), a.pos, a.found, NoMsg);
            var r := Apply(cfg, t, Settle([p3]));
            && Follows(cfg, t, Settle([p3]), r)
            && (c.Broken? <==> r.Fail?)
            && (r.Done? ==> |r.value.conn| == |r.value.client| == |t.client|)
            && (c.Dial? ==>
                  && r.value.client[0].fd == fdC && r.value.conn[0] == NewConn(2).(forks := 1)
                  && r.value.held == map[b.line := p2][c.line := p3])
            && (c.NoDevice? || c.Exhausted? ==>
                  && r.value.client[0].fd == -1 && r.value.conn[0] == NewConn(2)
                  && r.value.sent == [(fdC, Complaint(c))])
  {
    hide First, Choose, Leads, Follows, Apply, FreshPid, Without, Complaint, Joined;
    var t5;
    moves, t5 := TwoDialOneLeaves(cfg, fdA, fdB, uid, s1, sp1, s2, sp2, p1, p2);
    ExitsAt(cfg, t5, 0, p1, stat);
    var q := t5.conn[0];
    var t6 := t5.(flag := true, running := t5.running - {p1},
                  client := t5.client[0 := t5.client[0].(childdone := stat + 1)],
                  conn := t5.conn[0 := q.(ends := q.ends + 1, ok := q.ok || stat == 0)]);
    LeadsOn(cfg, moves, t5, Exit(p1, true, stat), Done(t6));
    SettlesNothing(cfg, t6);
    var t7 := t6.(flag := false);
    LeadsOn(cfg, moves + [Exit(p1, true, stat)], t6, Settle([]), Done(t7));
    ArrivesFirst(cfg, t7, fdC, uid);
    var t8 := Joined(cfg, t7, fdC, uid);
    LeadsOn(cfg, moves + [Exit(p1, true, stat)] + [Settle([])], t7, Arrive(fdC, uid), Done(t8));
    ExitsAt(cfg, t8, 1, p2, 0);
    var q1 := t8.conn[1];
    t := t8.(flag := true, running := t8.running - {p2}, client := t8.client[1 := t8.client[1].(childdone := 1)],
             conn := t8.conn[1 := q1.(ends := q1.ends + 1, ok := true)]);
    LeadsOn(cfg, moves + [Exit(p1, true, stat)] + [Settle([])] + [Arrive(fdC, uid)], t8, Exit(p2, true, 0), Done(t));
    moves := moves + [Exit(p1, true, stat)] + [Settle([])] + [Arrive(fdC, uid)] + [Exit(p2, true, 0)];
    var b := First(cfg, map[First(cfg, map[], s1, sp1).line := p1], s2, sp2);
    NotTheirLine(b.line, p2, p1);
    FreshBesides(b.line, p2, p3);
    SearchesOn(cfg, map[b.line := p2], t.client[0]);
    SettlesFailure(cfg, t, 0, [p3]);
  }

  lemma NotTheirLine(line: CStr, pid: int, other: int)
    requires pid != other
    ensures Without(map[line := pid], other) == map[line := pid]
  {
  }

  lemma SearchesOn(cfg: Config, held: map<CStr, int>, c: Client)
    requires c.sysftell >= 0
    ensures ChoiceFor(cfg, held, c)
              == Choose(Query(cfg.file, cfg.devices, held, c.sysname, c.speed), c.sysftell, c.foundone, NoMsg)
  {
  }

  lemma TwoDialOneLeaves(cfg: Config, fdA: int, fdB: int, uid: int, s1: CStr, sp1: CStr, s2: CStr, sp2: CStr, p1: int,
                         p2: int)
    returns (moves: seq<Move>, t: Tables)
    requires fdA >= 0 && fdB >= 0 && fdA != fdB && cfg.listenfd !in {fdA, fdB} && p1 > 0 && p2 > 0 && p1 != p2
    requires First(cfg, map[], s1, sp1).Dial? && First(cfg, map[First(cfg, map[], s1, sp1).line := p1], s2, sp2).Dial?
    ensures moves == [Arrive(fdA, uid), Arrive(fdB, uid), Hear(map[fdA := Ask(s1, sp1)], [p1]),
                      Hear(map[fdB := Ask(s2, sp2)], [0, p2]),
                      Hear(map[fdA := HangUp], [])]
    ensures Leads(cfg, moves, t)
    ensures var a, b := First(cfg, map[], s1, sp1), First(cfg, map[First(cfg, map[], s1, sp1).line := p1], s2, sp2);
            && Sized(t) && |t.client| > 1 && t.maxi == 1 && !t.flag && t.held == map[b.line := p2] && t.sent == []
            && t.arrivals == 2
            && t.client[0] == Dialing(cfg.fill.(fd := -1, uid := uid), s1, sp1, a, p1)
            && t.client[1] == Dialing(cfg.fill.(fd := fdB, uid := uid), s2, sp2, b, p2)
            && t.allset == {cfg.listenfd, fdB}
  {
    hide First, Choose, Leads, Follows, Apply, FreshPid, Without;
    var t2 := BothArrive(cfg, fdA, fdB, uid);
    var ms := [Arrive(fdA, uid), Arrive(fdB, uid)];
    var a, b := First(cfg, map[], s1, sp1), First(cfg, map[First(cfg, map[], s1, sp1).line := p1], s2, sp2);
    FreshInNone(p1);
    Asks(cfg, t2, 0, s1, sp1, [p1]);
    var m3 := Hear(map[fdA := Ask(s1, sp1)], [p1]);
    var t3 := Apply(cfg, t2, m3).value;
    LeadsOn(cfg, ms, t2, m3, Done(t3));
    FreshBesides(a.line, p1, p2);
    Asks(cfg, t3, 1, s2, sp2, [0, p2]);
    var m4 := Hear(map[fdB := Ask(s2, sp2)], [0, p2]);
    var t4 := Apply(cfg, t3, m4).value;
    LeadsOn(cfg, ms + [m3], t3, m4, Done(t4));
    HangsUp(cfg, t4, 0);
    var m5 := Hear(map[fdA := HangUp], []);
    t := Closed(t4.(held := Without(t4.held, p1)), 0, t4.client[0], false);
    LeadsOn(cfg, ms + [m3] + [m4], t4, m5, Done(t));
    moves := ms + [m3] + [m4] + [m5];
    FirstFree(cfg, map[a.line := p1], s2, sp2);
    OneLeft(a.line, p1, b.line, p2);
  }

  lemma FirstFree(cfg: Config, held: map<CStr, int>, sysname: CStr, speed: CStr)
    ensures var c := First(cfg, held, sysname, speed); c.Dial? ==> Holder(held, c.line) == 0
  {
    hide Choose, Holder;
    DialsFreeLine(Query(cfg.file, cfg.devices, held, sysname, speed), 0, 0, NoMsg);
  }

  lemma OneLeft(a: CStr, p1: int, b: CStr, p2: int)
    requires p1 != p2 && p1 != 0 && Holder(map[a := p1], b) == 0
    ensures Without(map[a := p1][b := p2], p1) == map[b := p2]
  {
  }

  /** New memory may hold a status. Then child_done, when it next runs, treats a client that has asked
      for nothing as one whose child has failed if and only if the status is that of a failure, and
      forks for it if and only if the search for what the memory holds succeeds too. */
  lemma StatusInNewMemory(cfg: Config, fdA: int, fdB: int, uid: int, sysname: CStr, speed: CStr, p: int, p2: int)
    returns (moves: seq<Move>, t: Tables)
    requires fdA >= 0 && fdB >= 0 && fdA != fdB && cfg.listenfd !in {fdA, fdB} && p > 0 && p2 > 0 && p != p2
    requires First(cfg, map[], sysname, speed).Dial?
    ensures moves == [Arrive(fdA, uid), Arrive(fdB, uid), Hear(map[fdA := Ask(sysname, speed)], [p]), Exit(p, true, 0)]
    ensures Leads(cfg, moves, t)
    ensures Sized(t) && |t.client| > 1 && t.client[1].fd == fdB && t.conn[1] == NewConn(1)
    ensures var held := Without(map[First(cfg, map[], sysname, speed).line := p], cfg.fill.pid);
            var c, r := ChoiceFor(cfg, held, cfg.fill), Apply(cfg, t, Settle([0, p2]));
            && Follows(cfg, t, Settle([0, p2]), r)
            && (r.Done? ==> |r.value.conn| == |r.value.client| == |t.client|)
            && ((r.Done? && r.value.conn[1].forks == 1) <==> (cfg.fill.childdone !in {0, 1} && c.Dial?))
            && ((r.Done? && r.value.sent != []) <==> (cfg.fill.childdone !in {0, 1} && (c.NoDevice? || c.Exhausted?)))
  {
    hide First, Choose, Leads, Follows, Apply, FreshPid, Without, Complaint, ChoiceFor;
    var t2 := BothArrive(cfg, fdA, fdB, uid);
    var ms := [Arrive(fdA, uid), Arrive(fdB, uid)];
    FreshInNone(p);
    Asks(cfg, t2, 0, sysname, speed, [p]);
    var m3 := Hear(map[fdA := Ask(sysname, speed)], [p]);
    var t3 := Apply(cfg, t2, m3).value;
    LeadsOn(cfg, ms, t2, m3, Done(t3));
    ExitsAt(cfg, t3, 0, p, 0);
    var q := t3.conn[0];
    t := t3.(flag := true, running := t3.running - {p}, client := t3.client[0 := t3.client[0].(childdone := 1)],
             conn := t3.conn[0 := q.(ends := q.ends + 1, ok := true)]);
    LeadsOn(cfg, ms + [m3], t3, Exit(p, true, 0), Done(t));
    moves := ms + [m3] + [Exit(p, true, 0)];
    var line := First(cfg, map[], sysname, speed).line;
    FreshBesides(line, p, p2);
    FreshAmongFewer(map[line := p], cfg.fill.pid, p2);
    SameSearch(cfg, Without(map[line := p], cfg.fill.pid), cfg.fill, t.client[1]);
    if cfg.fill.childdone !in {0, 1} {
      SettlesFailure(cfg, t, 1, [0, p2]);
    } else {
      SettlesSuccesses(cfg, t, [0, p2]);
    }
  }

  lemma FreshAmongFewer(held: map<CStr, int>, gone: int, pid: int)
    requires FreshPid(held, pid)
    ensures FreshPid(Without(held, gone), pid)
  {
  }

  lemma SameSearch(cfg: Config, held: map<CStr, int>, a: Client, b: Client)
    requires b == a.(fd := b.fd, uid := b.uid)
    ensures ChoiceFor(cfg, held, a) == ChoiceFor(cfg, held, b)
  {
  }

  /** child_done with a success at slot 0 and no failure at slot 1. */
  lemma SettlesSuccesses(cfg: Config, t: Tables, pids: seq<int>)
    requires Sized(t) && t.maxi == 1 && IsLive(t.client[0]) && t.client[0].childdone == 1
    requires !HasFailed(t.client[1])
    ensures var r := Apply(cfg, t, Settle(pids));
            Follows(cfg, t, Settle(pids), r) && r.Done? && r.value.conn == t.conn && r.value.sent == t.sent
                && |r.value.client| == |t.client|
  {
    hide Tried, ChoiceFor, Sweep, MaySweep;
    var t0 := t.(flag := false);
    SweepTwo(cfg, Settling, t0, pids);
    ActClears(cfg, t0, 0, PidAt(pids, 0));
  }

  lemma FreshInNone(pid: int)
    requires pid > 0
    ensures FreshPid(map[], pid)
  {
  }

  lemma OnlyLine(line: CStr, pid: int)
    ensures Without(map[line := pid], pid) == map[]
  {
  }

  lemma LeadsSized(cfg: Config, moves: seq<Move>, t: Tables)
    requires Leads(cfg, moves, t)
    ensures Sized(t)
  {
  }
}
