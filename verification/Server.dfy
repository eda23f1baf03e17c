/** The dialer server: the methods of client.c, request.c and loop.c on its real tables, each proved
    against the transition system, with the outside world as parameters. */
module Server {
  import opened Records
  import opened Systems
  import opened LockTable
  import opened Search
  import opened Dialer

  /** request() started a child, or it could not and said why, or the server quit. */
  datatype Attempt = Forked | GaveUp | Died

  /** What the outside world does next: a child ends, a connection arrives, or some clients have
      become readable. */
  datatype Event = ChildEnds(pid: int, exited: bool, stat: nat) | Arrival(uid: int) | Readable(got: map<int, Input>)

  /** The lock table says who holds what. */
  ghost predicate HeldBy(entries: seq<LockEntry>, held: map<CStr, int>) {
    forall l :: Owner(entries, l) == Holder(held, l)
  }

  /** The server's variables are those of the transition system. */
  ghost predicate Mirrors(t: Tables, client: seq<Client>, allset: set<int>, maxfd: int, maxi: int, flag: bool,
                          sent: seq<(int, ErrMsg)>) {
    t.client == client && t.allset == allset && t.maxfd == maxfd && t.maxi == maxi && t.flag == flag && t.sent == sent
  }

  /** The event that a move of the transition system answers; child_done answers none. */
  function Outline(moves: seq<Move>): seq<Event> {
    if |moves| == 0 then []
    else
      Outline(moves[..|moves| - 1]) +
      match moves[|moves| - 1]
      case Exit(pid, exited, stat) => [ChildEnds(pid, exited, stat)]
      case Settle(_) => []
      case Arrive(_, uid) => [Arrival(uid)]
      case Hear(got, _) => [Readable(got)]
  }

  /** child_done runs whenever the flag is up before the server waits for a connection or a request. */
  predicate InOrder(cfg: Config, t: Tables, moves: seq<Move>)
    requires Sized(t)
  {
    |moves| == 0 ||
    (InOrder(cfg, t, moves[..|moves| - 1]) &&
     var u := Run(cfg, t, moves[..|moves| - 1]);
     u.Done? && u.value.flag ==> !moves[|moves| - 1].Arrive? && !moves[|moves| - 1].Hear?)
  }

  class Server {
    const cfg: Config
    const locks: Locks
    const systems: SystemsFile
    var client: seq<Client>
    var allset: set<int>
    var maxfd: int
    var maxi: int
    var chldFlag: bool
    var errmsg: ErrMsg
    var sent: seq<(int, ErrMsg)>     // what send_err sent, and to whom
    ghost var t: Tables

    ghost predicate Coupled()
      reads this, locks
    {
      && locks.Valid() && NeverStolen(locks.changes) && systems.file == cfg.file
      && HeldBy(locks.Used(), t.held)
      && Mirrors(t, client, allset, maxfd, maxi, chldFlag, sent)
      && Safe(cfg, t)
    }

    constructor (cfg: Config, fillLock: LockEntry)
      requires cfg.listenfd >= 0
      ensures Coupled() && fresh(locks) && fresh(systems) && this.cfg == cfg && t == Start(cfg) && locks.changes == []
    {
      this.cfg := cfg;
      var l := new Locks(fillLock);
      var f := new SystemsFile(cfg.file);
      locks, systems := l, f;
      client, allset, maxfd, maxi, chldFlag, errmsg, sent := [], {cfg.listenfd}, cfg.listenfd, -1, false, NoMsg, [];
      t := Start(cfg);
      StartIsSafe(cfg);
    }

    // ---- client.c ----

    method ClientAlloc()
      modifies `client
      ensures client == Grown(old(client), cfg.fill)
    {
      client := client + seq(NALLOC, _ => cfg.fill.(fd := -1));
    }

    /** Takes the first free slot; when there is none the table grows, old entries stay as they
        are, and the second search takes the first new slot. */
    method ClientAdd(fd: int, uid: int) returns (i: nat)
      modifies `client
      ensures i == FreeSlot(old(client)) < |Roomy(old(client), cfg.fill)|
      ensures client == Roomy(old(client), cfg.fill)[i := Roomy(old(client), cfg.fill)[i].(fd := fd, uid := uid)]
    {
      ghost var c0 := client;
      if |client| == 0 {
        ClientAlloc();
      }
      while true
        invariant client == c0 || (client == Grown(c0, cfg.fill) && FreeSlot(c0) == |c0|)
        decreases if client == c0 then 1 else 0
      {
        i := 0;
        while i < |client|
          invariant i <= |client| && forall k | 0 <= k < i :: client[k].fd != -1
        {
          if client[i].fd == -1 {
            FreeSlotIs(client, i);
            FirstNewSlot(c0, cfg.fill);
            client := client[i := client[i].(fd := fd, uid := uid)];
            return;
          }
          i := i + 1;
        }
        FirstNewSlot(c0, cfg.fill);
        ClientAlloc();
      }
    }

    /** Frees the first slot with this descriptor. */
    method ClientDel(fd: int) returns (ok: bool)
      requires fd != -1
      modifies `client
      ensures ok <==> exists k :: 0 <= k < |old(client)| && old(client)[k].fd == fd
      ensures ok ==> exists i :: 0 <= i < |old(client)| && old(client)[i].fd == fd
                                 && (forall k | 0 <= k < i :: old(client)[k].fd != fd)
                                 && client == old(client)[i := old(client)[i].(fd := -1)]
    {
      var i := 0;
      while i < |client|
        invariant i <= |client| && unchanged(this) && forall k | 0 <= k < i :: client[k].fd != fd
      {
        if client[i].fd == fd {
          client := client[i := client[i].(fd := -1)];
          return true;
        }
        i := i + 1;
      }
      return false;
    }

    /** Notes a child's exit status for the first client with its pid. */
    method ClientSigChld(pid: int, stat: int) returns (ok: bool)
      modifies `client
      ensures ok <==> SlotOf(old(client), pid) < |old(client)|
      ensures var i := SlotOf(old(client), pid);
              client == if ok then old(client)[i := old(client)[i].(childdone := stat)] else old(client)
    {
      var i := 0;
      while i < |client|
        invariant i <= |client| && client == old(client) && forall k | 0 <= k < i :: client[k].pid != pid
      {
        if client[i].pid == pid {
          SlotOfIs(client, pid, i);
          client := client[i := client[i].(childdone := stat)];
          return true;
        }
        i := i + 1;
      }
      return false;
    }

    /** The SIGCHLD handler, for whatever child; the server quits if no slot remembers one that exited. */
    method SigChld(pid: int, exited: bool, stat: nat) returns (ok: bool)
      requires Coupled()
      modifies `client, `chldFlag, `t
      ensures match Noted(old(t), pid, exited, stat) case Fail => !ok case Done(u) => ok && t == u && Coupled()
    {
      hide Safe, NeverStolen, HeldBy, Recorded, SlotOf;
      SafeFacts(cfg, t);
      ghost var r := Noted(t, pid, exited, stat);
      ApplySafe(cfg, t, Exit(pid, exited, stat));
      chldFlag := true;
      ok := true;
      if exited {
        ok := ClientSigChld(pid, stat + 1);
      }
      if ok {
        t := r.value;
      }
    }

    // ---- request.c ----

    /** fork() in the parent: some process number that holds no line. */
    method Fork() returns (pid: int)
      requires locks.Valid() && HeldBy(locks.Used(), t.held) && OneLine(t.held)
      ensures FreshPid(t.held, pid)
    {
      pid := 1;
      var i := 0;
      while i < locks.nlocks
        invariant i <= locks.nlocks && pid > 0 && forall k | 0 <= k < i :: locks.lock[k].pid < pid
      {
        pid := Max(pid, locks.lock[i].pid + 1);
        i := i + 1;
      }
      HoldersBelow(locks.Used(), t.held, pid);
    }

    /** dev_find: scans the Devices file from its start. */
    method DevFind(e: Entry) returns (line: Option<CStr>)
      modifies `errmsg
      ensures line == FindDevice(cfg.devices, e)
      ensures line.None? ==> errmsg == NoDeviceFor(e.kind, e.class_)
      ensures line.Some? ==> unchanged(`errmsg)
    {
      var k := 0;
      assert cfg.devices[0..] == cfg.devices;
      while k < |cfg.devices|
        invariant k <= |cfg.devices| && unchanged(`errmsg)
        invariant FindDevice(cfg.devices, e) == FindDevice(cfg.devices[k..], e)
      {
        assert cfg.devices[k..][0] == cfg.devices[k] && cfg.devices[k..][1..] == cfg.devices[k + 1..];
        if cfg.devices[k].kind == e.kind && cfg.devices[k].class_ == e.class_ {
          return Some(cfg.devices[k].line);
        }
        k := k + 1;
      }
      errmsg := NoDeviceFor(e.kind, e.class_);
      return None;
    }

    /** The loop of request(): on from the client's position to the first matching entry whose
        device is missing or free. */
    method SearchSystems(i: nat, ghost held: map<CStr, int>) returns (choice: Choice)
      requires locks.Valid() && HeldBy(locks.Used(), held) && i < |client| && systems.file == cfg.file
      modifies `client, `errmsg, locks, systems
      ensures locks.Valid() && HeldBy(locks.Used(), held) && locks.changes == old(locks.changes)
      ensures choice == ChoiceFor(cfg, held, old(client)[i])
      ensures !choice.Broken? ==>
                var pos := if choice.Exhausted? then -1 else choice.pos;
                client == old(client)[i := old(client)[i].(sysftell := pos, foundone := choice.found)]
      ensures choice.NoDevice? || choice.Exhausted? ==> errmsg == choice.text
    {
      hide Choose, Recorded, SysNext, FindDevice, Owner, Sound, Holder;
      var c := client[i];
      errmsg := NoMsg;
      if c.sysftell < 0 {
        return Broken;
      }
      ghost var q := QueryOf(cfg, held, c);
      systems.Position(c.sysftell);
      var found := c.foundone;
      while true
        invariant i < |client| && client == old(client)[i := c.(sysftell := client[i].sysftell, foundone := found)]
        invariant locks.Valid() && HeldBy(locks.Used(), held) && locks.changes == old(locks.changes)
        invariant Choose(q, systems.pos, found, errmsg) == ChoiceFor(cfg, held, c)
        decreases |systems.file| - systems.pos
      {
        ChooseStep(q, systems.pos, found, errmsg);
        var r := systems.ReadNext();
        if r.Fail? {
          return Broken;
        }
        if r.value.None? {
          client := client[i := client[i].(sysftell := -1)];
          return Exhausted(found, errmsg);
        }
        var e := r.value.value;
        client := client[i := client[i].(sysftell := systems.pos)];
        if e.name == c.sysname {
          if c.speed != [] && e.class_ != c.speed {
            continue;
          }
          found := found + 1;
          client := client[i := client[i].(foundone := found)];
          var line := DevFind(e);
          if line.None? {
            return NoDevice(systems.pos, found, errmsg);
          }
          var pid := IsLocked(line.value, held);
          if pid != 0 {
            errmsg := AlreadyLocked(line.value, pid);
            continue;
          }
          return Dial(line.value, systems.pos, found);
        }
      }
    }

    method IsLocked(line: CStr, ghost held: map<CStr, int>) returns (pid: int)
      requires locks.Valid() && HeldBy(locks.Used(), held)
      modifies locks
      ensures locks.Valid() && HeldBy(locks.Used(), held) && locks.changes == old(locks.changes)
      ensures pid == Holder(held, line)
    {
      hide Recorded, Sound, Owner, Holder;
      pid := locks.IsLocked(line);
    }

    /** One attempt for client i. */
    method Request(i: nat) returns (r: Attempt, ghost pid: int)
      requires Coupled() && i < |client| && IsLive(client[i])
      modifies `client, `errmsg, `t, locks, systems
      ensures var choice := ChoiceFor(cfg, old(t).held, old(client)[i]);
              && r == (if choice.Dial? then Forked else if choice.Broken? then Died else GaveUp)
              && (r == Forked ==>
                    FreshPid(old(t).held, pid) && i < |old(t).client| && Sized(old(t))
                        && Tried(cfg, old(t), i, pid) == Done(t) && Coupled())
              && (r == GaveUp ==>
                    && (choice.NoDevice? || choice.Exhausted?) && errmsg == Complaint(choice) && t == old(t)
                    && locks.Valid() && NeverStolen(locks.changes) && HeldBy(locks.Used(), t.held)
                    && var pos := if choice.NoDevice? then choice.pos else -1;
                    client == old(client)[i := old(client)[i].(sysftell := pos, foundone := choice.found)])
    {
      hide Safe, NeverStolen, HeldBy, Recorded, ChoiceFor, FreshPid, Sound;
      ghost var t0 := t;
      SafeFacts(cfg, t);
      var choice := SearchSystems(i, t.held);
      match choice {
        case Broken => return Died, 0;
        case Dial(line, pos, found) =>
          var p := Fork();
          client := client[i := client[i].(pid := p)];
          TakesHold(cfg, t0, i, line, p);
          ghost var entries, changes := locks.Used(), locks.changes;
          locks.LockSet(line, p);
          NowHeldBy(entries, locks.Used(), t0.held, line, p);
          NeverStolenNext(changes, Handover(line, 0, p));
          TriedSafe(cfg, t0, i, p);
          t := Tried(cfg, t0, i, p).value;
          return Forked, p;
        case NoDevice(_, _, _) =>
        case Exhausted(_, _) =>
      }
      if client[i].foundone == 0 {
        errmsg := NotFound;
      } else if errmsg == NoMsg {
        errmsg := Unable;
      }
      return GaveUp, 0;
    }

    // ---- loop.c ----

    /** cli_done: the slot is free and the descriptor out of the select set. */
    method CliDone(fd: int) returns (ok: bool)
      requires fd != -1
      modifies `client, `allset
      ensures ok <==> exists k :: 0 <= k < |old(client)| && old(client)[k].fd == fd
      ensures ok ==> exists i :: 0 <= i < |old(client)| && old(client)[i].fd == fd
                                 && (forall k | 0 <= k < i :: old(client)[k].fd != fd)
                                 && client == old(client)[i := old(client)[i].(fd := -1)]
      ensures ok ==> allset == old(allset) - {fd}
    {
      ok := ClientDel(fd);
      if ok {
        allset := allset - {fd};
      }
    }

    /** cli_done for the client in slot i, whatever else its slot has come to hold. */
    method Remove(i: nat, ghost u: Tables)
      requires TableSound(cfg, u) && Sized(u) && i < |client| == |u.client| && client == u.client[i := client[i]]
      requires client[i].fd == u.client[i].fd >= 0
      modifies `client, `allset
      ensures client == old(client)[i := old(client)[i].(fd := -1)] && allset == old(allset) - {u.client[i].fd}
    {
      ghost var c0 := client;
      forall k | 0 <= k < |c0| && c0[k].fd == c0[i].fd ensures k == i {
        OneFd(cfg, u, i, k);
      }
      var ok := CliDone(client[i].fd);
    }

    /** request(), and the end of the client if it fails: one error sent, the client removed. */
    method TryOrDrop(i: nat) returns (alive: bool, ghost pid: int)
      requires Coupled() && i < |client| && IsLive(client[i])
      modifies `client, `errmsg, `t, `sent, `allset, locks, systems
      ensures Sized(old(t)) && i < |old(t).client|
      ensures ChoiceFor(cfg, old(t).held, old(t).client[i]).Dial? ==> FreshPid(old(t).held, pid)
      ensures match Tried(cfg, old(t), i, pid) case Fail => !alive case Done(u) => alive && t == u && Coupled()
    {
      hide Safe, NeverStolen, HeldBy, Recorded, ChoiceFor, FreshPid, Sound, TableSound, Complaint;
      ghost var t0 := t;
      SafeFacts(cfg, t);
      var r;
      r, pid := Request(i);
      match r {
        case Died => return false, pid;
        case Forked => return true, pid;
        case GaveUp =>
      }
      sent := sent + [(client[i].fd, errmsg)];
      Remove(i, t0);
      TriedSafe(cfg, t0, i, pid);
      t := Tried(cfg, t0, i, pid).value;
      return true, pid;
    }

    /** child_done's work for one slot. */
    method SettleOne(i: nat) returns (alive: bool, ghost pid: int)
      requires Coupled() && i < |client|
      modifies `client, `errmsg, `t, `sent, `allset, locks, systems
      ensures Sized(old(t)) && i < |old(t).client| && MayAct(cfg, Settling, old(t), i, pid, false)
      ensures match Act(cfg, Settling, old(t), i, pid) case Fail => !alive case Done(u) => alive && t == u && Coupled()
    {
      hide Safe, NeverStolen, HeldBy, Recorded, ChoiceFor, FreshPid, Sound, Tried, Without;
      ghost var t0 := t;
      SafeFacts(cfg, t);
      var c := client[i];
      pid := 0;
      if c.fd < 0 || c.childdone == 0 {
        return true, pid;
      }
      client := client[i := c.(childdone := 0)];
      if c.childdone == 1 {
        ActSafe(cfg, Settling, t0, i, pid);
        t := t.(client := client);
        return true, pid;
      }
      TurnSafe(cfg, Settling, t0, i);
      Release(c.pid);
      t := Turn(Settling, t0, i).value;
      alive, pid := TryOrDrop(i);
    }

    /** lock_rel. */
    method Release(pid: int)
      requires locks.Valid() && HeldBy(locks.Used(), t.held) && OneLine(t.held) && NeverStolen(locks.changes)
      modifies locks
      ensures locks.Valid() && HeldBy(locks.Used(), Without(t.held, pid)) && NeverStolen(locks.changes)
    {
      hide Recorded, Sound, Owner, NeverStolen, Without;
      ghost var entries, changes := locks.Used(), locks.changes;
      locks.LockRel(pid);
      GivenUpHeld(entries, locks.Used(), changes, locks.changes, t.held, pid);
    }

    /** child_done: every exit status that waits is dealt with. */
    method ChildDone() returns (alive: bool, ghost pids: seq<int>)
      requires Coupled()
      modifies `client, `errmsg, `t, `sent, `allset, `chldFlag, locks, systems
      ensures Sized(old(t)) && May(cfg, old(t), Settle(pids), false)
      ensures match Apply(cfg, old(t), Settle(pids)) case Fail => !alive case Done(u) => alive && t == u && Coupled()
    {
      hide Safe, NeverStolen, HeldBy, Recorded, Sound, Act, MayAct;
      SafeFacts(cfg, t);
      LowerFlag();
      ghost var t0 := t;
      pids := [];
      var i := 0;
      while i <= maxi
        invariant 0 <= i <= maxi + 1 <= |t0.client| && |pids| == i && maxi == t0.maxi && Coupled()
        invariant MaySweep(cfg, Settling, t0, pids, i, false) && Sweep(cfg, Settling, t0, pids, i) == Done(t)
      {
        ghost var p;
        SafeFacts(cfg, t);
        alive, p := SettleOne(i);
        SweepOn(cfg, Settling, t0, pids, i, p);
        pids := pids + [p];
        if !alive {
          SweepFails(cfg, Settling, t0, pids, i + 1, maxi + 1);
          return;
        }
        SafeFacts(cfg, t);
        i := i + 1;
      }
      return true, pids;
    }

    method LowerFlag()
      requires Coupled()
      modifies `chldFlag, `t
      ensures Coupled() && t == old(t).(flag := false)
    {
      hide TableSound, OneLine, HeldBy, NeverStolen, Recorded;
      SameFds(cfg, t, t.(flag := false));
      chldFlag := false;
      t := t.(flag := false);
    }

    /** accept(): some descriptor that is not open. */
    method Accept() returns (fd: int)
      requires Coupled()
      ensures fd >= 0 && fd !in allset
    {
      hide NeverStolen, HeldBy, Recorded, OneLine;
      fd := maxfd + 1;
      assert forall f | f in t.allset :: f <= t.maxfd;
    }

    /** The loop's work when a connection has arrived. */
    method AcceptOne(fd: int, uid: int)
      requires Coupled() && fd >= 0 && fd !in allset
      modifies `client, `allset, `maxfd, `maxi, `t
      ensures Coupled() && Sized(old(t)) && t == Joined(cfg, old(t), fd, uid)
    {
      hide Safe, NeverStolen, HeldBy, Recorded, FreeSlot, Roomy;
      SafeFacts(cfg, t);
      ApplySafe(cfg, t, Arrive(fd, uid));
      t := Joined(cfg, t, fd, uid);
      var i := ClientAdd(fd, uid);
      allset := allset + {fd};
      maxfd := Max(fd, maxfd);
      maxi := Max(i, maxi);
    }

    /** The loop's work for a slot, given what reads from those that are ready yield. */
    method ReadOne(i: nat, got: map<int, Input>) returns (alive: bool, ghost pid: int)
      requires Coupled() && i < |client|
      modifies `client, `errmsg, `t, `sent, `allset, locks, systems
      ensures Sized(old(t)) && i < |old(t).client| && MayAct(cfg, Reading(got), old(t), i, pid, false)
      ensures match Act(cfg, Reading(got), old(t), i, pid)
              case Fail => !alive
              case Done(u) => alive && t == u && Coupled()
    {
      hide Safe, NeverStolen, HeldBy, Recorded, ChoiceFor, FreshPid, Sound, Tried, Without, TableSound;
      ghost var t0 := t;
      SafeFacts(cfg, t);
      var c := client[i];
      pid := 0;
      if c.fd < 0 || c.fd !in got {
        return true, pid;
      }
      match got[c.fd] {
        case Garbage => return false, pid;
        case HangUp =>
          ActSafe(cfg, Reading(got), t0, i, pid);
          Release(c.pid);
          Remove(i, t0);
          t := Act(cfg, Reading(got), t0, i, pid).value;
          return true, pid;
        case Ask(sysname, speed) =>
          TurnSafe(cfg, Reading(got), t0, i);
          client := client[i := WithRequest(c, sysname, speed)];
          t := Turn(Reading(got), t0, i).value;
          alive, pid := TryOrDrop(i);
      }
    }

    /** The loop's pass over the clients. */
    method ReadClients(got: map<int, Input>) returns (alive: bool, ghost pids: seq<int>)
      requires Coupled()
      modifies `client, `errmsg, `t, `sent, `allset, locks, systems
      ensures Sized(old(t)) && May(cfg, old(t), Hear(got, pids), false)
      ensures match Apply(cfg, old(t), Hear(got, pids)) case Fail => !alive case Done(u) => alive && t == u && Coupled()
    {
      hide Safe, NeverStolen, HeldBy, Recorded, Sound, Act, MayAct;
      ghost var t0, w := t, Reading(got);
      SafeFacts(cfg, t);
      pids := [];
      var i := 0;
      while i <= maxi
        invariant 0 <= i <= maxi + 1 <= |t0.client| && |pids| == i && maxi == t0.maxi && Coupled()
        invariant MaySweep(cfg, w, t0, pids, i, false) && Sweep(cfg, w, t0, pids, i) == Done(t)
      {
        ghost var p;
        SafeFacts(cfg, t);
        alive, p := ReadOne(i, got);
        SweepOn(cfg, w, t0, pids, i, p);
        pids := pids + [p];
        if !alive {
          SweepFails(cfg, w, t0, pids, i + 1, maxi + 1);
          return;
        }
        SafeFacts(cfg, t);
        i := i + 1;
      }
      return true, pids;
    }

    /** loop(): the events come one by one, and child_done runs whenever the flag is up before the
        server waits again. It does exactly what a run of the transition system does that answers
        these events in this order, and it quits exactly when that run does. */
    method Loop(events: seq<Event>) returns (alive: bool, ghost moves: seq<Move>)
      requires Coupled()
      modifies this, locks, systems
      ensures Sized(old(t)) && MayRun(cfg, old(t), moves, false) && InOrder(cfg, old(t), moves)
              && Outline(moves) <= events
      ensures match Run(cfg, old(t), moves)
              case Fail => !alive
              case Done(u) => alive && t == u && Coupled() && !t.flag && Outline(moves) == events
    {
      hide Safe, NeverStolen, HeldBy, Recorded, Sound, Apply, May, Run, MayRun, InOrder, Outline;
      ghost var t0 := t;
      SafeFacts(cfg, t);
      moves := [];
      RunNone(cfg, t);
      var n := 0;
      while true
        invariant n <= |events| && Coupled() && Sized(t)
        invariant Run(cfg, t0, moves) == Done(t) && MayRun(cfg, t0, moves, false) && InOrder(cfg, t0, moves)
        invariant Outline(moves) == events[..n] && t.flag == chldFlag
        decreases |events| - n
      {
        ghost var m;
        if chldFlag {
          alive, m := HandleFlag();
          RunOn(cfg, t0, moves, m);
          moves := moves + [m];
          if !alive {
            return;
          }
          SafeFacts(cfg, t);
        }
        if n == |events| {
          assert events[..n] == events;
          return true, moves;
        }
        alive, m := Handle(events[n]);
        RunOn(cfg, t0, moves, m);
        moves := moves + [m];
        assert events[..n + 1] == events[..n] + [events[n]];
        if !alive {
          return;
        }
        SafeFacts(cfg, t);
        n := n + 1;
      }
    }

    /** child_done at the head of the loop. */
    method HandleFlag() returns (alive: bool, ghost m: Move)
      requires Coupled()
      modifies this, locks, systems
      ensures Sized(old(t)) && May(cfg, old(t), m, false) && m.Settle?
      ensures match Apply(cfg, old(t), m)
              case Fail => !alive
              case Done(u) => alive && t == u && Coupled() && !t.flag && !chldFlag
    {
      hide Safe, NeverStolen, HeldBy, Recorded, Sound, May, MaySweep;
      ghost var pids;
      ghost var t0 := t;
      alive, pids := ChildDone();
      m := Settle(pids);
      FlagStaysDown(cfg, t0, pids);
    }

    /** One event. */
    method Handle(e: Event) returns (alive: bool, ghost m: Move)
      requires Coupled()
      modifies this, locks, systems
      ensures Sized(old(t)) && May(cfg, old(t), m, false) && Outline([m]) == [e] && !m.Settle?
      ensures match Apply(cfg, old(t), m)
              case Fail => !alive
              case Done(u) => alive && t == u && Coupled() && t.flag == chldFlag
    {
      hide Safe, NeverStolen, HeldBy, Recorded, Sound, MaySweep, Sweep, Noted, Joined;
      SafeFacts(cfg, t);
      match e {
        case ChildEnds(pid, exited, stat) =>
          m := Exit(pid, exited, stat);
          OutlineOne(m);
          alive := SigChld(pid, exited, stat);
        case Arrival(uid) =>
          var fd := Accept();
          m := Arrive(fd, uid);
          OutlineOne(m);
          AcceptOne(fd, uid);
          alive := true;
        case Readable(got) =>
          ghost var pids;
          alive, pids := ReadClients(got);
          m := Hear(got, pids);
          OutlineOne(m);
      }
    }
  }

  // ---- Small facts ----

  lemma SafeFacts(cfg: Config, t: Tables)
    requires Safe(cfg, t)
    ensures Sized(t) && TableSound(cfg, t) && OneLine(t.held)
  {
  }

  lemma FirstNewSlot(client: seq<Client>, fill: Client)
    ensures FreeSlot(client) == |client| ==>
              FreeSlot(Grown(client, fill)) == |client| && Grown(client, fill) == Roomy(client, fill)
    ensures FreeSlot(client) < |client| ==> client == Roomy(client, fill)
  {
    if FreeSlot(client) == |client| {
      FreeSlotIs(Grown(client, fill), |client|);
    }
  }

  lemma HoldersBelow(entries: seq<LockEntry>, held: map<CStr, int>, pid: int)
    requires HeldBy(entries, held) && OneLine(held) && pid > 0
    requires forall k | 0 <= k < |entries| :: entries[k].pid < pid
    ensures FreshPid(held, pid)
  {
    forall l | l in held ensures held[l] != pid {
      var k := OwnerFound(entries, l);
      assert Owner(entries, l) == Holder(held, l) == held[l];
    }
  }

  lemma TakesHold(cfg: Config, t: Tables, i: nat, line: CStr, pid: int)
    requires Sized(t) && i < |t.client| && ChoiceFor(cfg, t.held, t.client[i]).Dial?
             && ChoiceFor(cfg, t.held, t.client[i]).line == line
    ensures Holder(t.held, line) == 0
  {
    hide Choose, Holder;
    var c := t.client[i];
    DialsFreeLine(QueryOf(cfg, t.held, c), c.sysftell, c.foundone, NoMsg);
  }

  lemma NowHeldBy(before: seq<LockEntry>, after: seq<LockEntry>, held: map<CStr, int>, line: CStr, pid: int)
    requires HeldBy(before, held) && forall l :: Owner(after, l) == if l == line then pid else Owner(before, l)
    ensures HeldBy(after, held[line := pid]) && Owner(before, line) == Holder(held, line)
  {
  }

  lemma GivenUpHeld(before: seq<LockEntry>, after: seq<LockEntry>, changes: seq<Handover>, changes': seq<Handover>,
                    held: map<CStr, int>, pid: int)
    requires GivenUp(before, after, changes, changes', pid) && HeldBy(before, held) && OneLine(held)
             && NeverStolen(changes)
    ensures HeldBy(after, Without(held, pid)) && NeverStolen(changes')
  {
    ReleaseFair(changes);
    forall l ensures Owner(after, l) == Holder(Without(held, pid), l) {
      assert Owner(before, l) == Holder(held, l);
    }
  }

  lemma ChooseStep(q: Query, pos: nat, found: int, text: ErrMsg)
    ensures var n, c := SysNext(q.file, pos), Choose(q, pos, found, text);
            && (n.AtEnd? ==> c == Exhausted(found, text))
            && (n.Quit? ==> c == Broken)
            && (n.Found? ==>
                  var e := n.entry;
                  var line := FindDevice(q.devices, e);
                  && pos < n.pos <= |q.file|
                  && (!(e.name == q.sysname && (q.speed == [] || e.class_ == q.speed)) ==>
                        c == Choose(q, n.pos, found, text))
                  && (e.name == q.sysname && (q.speed == [] || e.class_ == q.speed) ==>
                        c == if line.None? then NoDevice(n.pos, found + 1, NoDeviceFor(e.kind, e.class_))
                             else if Holder(q.held, line.value) != 0 then
                               Choose(q, n.pos, found + 1, AlreadyLocked(line.value, Holder(q.held, line.value)))
                             else Dial(line.value, n.pos, found + 1)))
  {
  }

  /** Only the first n pids matter to a pass over n slots. */
  lemma {:induction false} SweepSame(cfg: Config, w: Purpose, t: Tables, a: seq<int>, b: seq<int>, n: nat)
    requires Sized(t) && n <= |t.client| && n <= |a| && n <= |b| && a[..n] == b[..n]
    ensures Sweep(cfg, w, t, a, n) == Sweep(cfg, w, t, b, n)
    ensures MaySweep(cfg, w, t, a, n, false) == MaySweep(cfg, w, t, b, n, false)
  {
    hide Act, MayAct;
    if n > 0 {
      assert a[..n - 1] == a[..n][..n - 1] && b[..n - 1] == b[..n][..n - 1]
             && a[n - 1] == a[..n][n - 1] == b[..n][n - 1] == b[n - 1];
      SweepSame(cfg, w, t, a, b, n - 1);
    }
  }

  /** One slot more. */
  lemma SweepOn(cfg: Config, w: Purpose, t: Tables, pids: seq<int>, n: nat, p: int)
    requires Sized(t) && n < |t.client| && |pids| == n && MaySweep(cfg, w, t, pids, n, false)
             && Sweep(cfg, w, t, pids, n).Done?
    ensures var u := Sweep(cfg, w, t, pids, n).value;
            && Sweep(cfg, w, t, pids + [p], n + 1) == Act(cfg, w, u, n, p)
            && (MayAct(cfg, w, u, n, p, false) ==> MaySweep(cfg, w, t, pids + [p], n + 1, false))
  {
    hide Act, MayAct;
    SweepSame(cfg, w, t, pids, pids + [p], n);
  }

  /** A pass in which the server quits does not go on. */
  lemma {:induction false} SweepFails(cfg: Config, w: Purpose, t: Tables, pids: seq<int>, n: nat, m: nat)
    requires Sized(t) && n <= m <= |t.client| && Sweep(cfg, w, t, pids, n).Fail? && MaySweep(cfg, w, t, pids, n, false)
    ensures Sweep(cfg, w, t, pids, m).Fail? && MaySweep(cfg, w, t, pids, m, false)
  {
    hide Act, MayAct;
    if n < m {
      SweepFails(cfg, w, t, pids, n, m - 1);
    }
  }

  lemma RunNone(cfg: Config, t: Tables)
    requires Sized(t)
    ensures Run(cfg, t, []) == Done(t) && MayRun(cfg, t, [], false) && InOrder(cfg, t, []) && Outline([]) == []
  {
  }

  /** One move more. */
  lemma RunOn(cfg: Config, t: Tables, moves: seq<Move>, m: Move)
    requires Sized(t) && Run(cfg, t, moves).Done? && MayRun(cfg, t, moves, false) && InOrder(cfg, t, moves)
    ensures var u := Run(cfg, t, moves).value;
            && Run(cfg, t, moves + [m]) == Apply(cfg, u, m)
            && (May(cfg, u, m, false) ==> MayRun(cfg, t, moves + [m], false))
            && (!u.flag || m.Settle? ==> InOrder(cfg, t, moves + [m]))
    ensures Outline(moves + [m]) == Outline(moves) + (if m.Settle? then [] else Outline([m]))
  {
    hide Apply, May;
    assert (moves + [m])[..|moves|] == moves;
    OutlineOne(m);
  }

  lemma OutlineOne(m: Move)
    ensures Outline([m]) == match m
                            case Exit(pid, exited, stat) => [ChildEnds(pid, exited, stat)]
                            case Settle(_) => []
                            case Arrive(_, uid) => [Arrival(uid)]
                            case Hear(got, _) => [Readable(got)]
  {
    assert [m][..0] == [];
  }

  lemma FlagStaysDown(cfg: Config, t: Tables, pids: seq<int>)
    requires Sized(t)
    ensures Apply(cfg, t, Settle(pids)).Done? ==> !Apply(cfg, t, Settle(pids)).value.flag
  {
    hide Act;
    SweepFlag(cfg, Settling, t.(flag := false), pids, t.maxi + 1);
  }

  lemma {:induction false} SweepFlag(cfg: Config, w: Purpose, t: Tables, pids: seq<int>, n: nat)
    requires Sized(t) && n <= |t.client|
    ensures Sweep(cfg, w, t, pids, n).Done? ==> Sweep(cfg, w, t, pids, n).value.flag == t.flag
  {
    hide ChoiceFor, Without, Complaint;
    if n > 0 {
      SweepFlag(cfg, w, t, pids, n - 1);
    }
  }
}
