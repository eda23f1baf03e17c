/** The dialer server as a transition system: its tables, and what each event does to them
    (chapter18/client.c, request.c, loop.c, sigchld.c). */
module Dialer {
  import opened Text
  import opened Records
  import opened Systems
  import opened LockTable
  import opened Search

  /** One slot of the client table; fd is -1 in a free slot. */
  datatype Client = Client(fd: int, pid: int, uid: int, childdone: int, sysftell: int, foundone: int, speed: CStr,
                           sysname: CStr)

  /** What has happened on a connection: what it asked for last, how many children were forked for
      it, how many of them are known to have ended, and whether one ended otherwise than by failing. */
  datatype Conn = Conn(id: nat, request: Option<(CStr, CStr)>, forks: nat, ends: nat, ok: bool)

  /** A connection that is over, because it hung up or because the server refused it. */
  datatype Past = Past(conn: Conn, fd: int, refused: bool)

  /** What does not change: the files, the listening descriptor, and what new memory happens to hold. */
  datatype Config = Config(file: seq<byte>, devices: seq<Device>, listenfd: int, fill: Client)

  /** The server's state, with which lines are held by whom, the children not reaped yet, and the
      history of every connection. conn runs along with client. */
  datatype Tables = Tables(
    client: seq<Client>, conn: seq<Conn>, held: map<CStr, int>, running: set<int>,
    allset: set<int>, maxfd: int, maxi: int, flag: bool,
    sent: seq<(int, ErrMsg)>, past: seq<Past>, arrivals: nat)

  predicate Sized(t: Tables) {
    |t.conn| == |t.client| && -1 <= t.maxi < |t.client|
  }

  function Start(cfg: Config): Tables {
    Tables([], [], map[], {}, {cfg.listenfd}, cfg.listenfd, -1, false, [], [], 0)
  }

  predicate IsLive(c: Client) {
    c.fd >= 0
  }

  // ---- client.c ----

  /** The first slot that is free, or the size of the table. */
  function FreeSlot(client: seq<Client>): (i: nat)
    ensures i <= |client| && (i < |client| ==> client[i].fd == -1) && forall k | 0 <= k < i :: client[k].fd != -1
  {
    if |client| == 0 || client[0].fd == -1 then 0 else 1 + FreeSlot(client[1..])
  }

  function Grown(client: seq<Client>, fill: Client): seq<Client> {
    client + seq(NALLOC, _ => fill.(fd := -1))
  }

  /** client_add: the first free slot, in the table or in a grown one. */
  function Roomy(client: seq<Client>, fill: Client): (r: seq<Client>)
    ensures FreeSlot(client) < |r| && |r| >= |client| && r[FreeSlot(client)].fd == -1
    ensures forall k | 0 <= k < |client| :: r[k] == client[k]
    ensures forall k | |client| <= k < |r| :: r[k] == fill.(fd := -1)
  {
    if FreeSlot(client) == |client| then Grown(client, fill) else client
  }

  function Max(a: int, b: int): int {
    if a > b then a else b
  }

  function NewConn(id: nat): Conn {
    Conn(id, None, 0, 0, false)
  }

  /** A connection arrives. */
  function Joined(cfg: Config, t: Tables, fd: int, uid: int): (r: Tables)
    requires Sized(t)
    ensures Sized(r)
  {
    var i := FreeSlot(t.client);
    var client := Roomy(t.client, cfg.fill);
    var conn := t.conn + seq(|client| - |t.client|, _ => NewConn(0));
    t.(client := client[i := client[i].(fd := fd, uid := uid)], conn := conn[i := NewConn(t.arrivals)],
       arrivals := t.arrivals + 1,
       allset := t.allset + {fd}, maxfd := Max(fd, t.maxfd), maxi := Max(i, t.maxi))
  }

  /** The first slot with this pid, or the size of the table. */
  function SlotOf(client: seq<Client>, pid: int): (i: nat)
    ensures i <= |client| && (i < |client| ==> client[i].pid == pid) && forall k | 0 <= k < i :: client[k].pid != pid
  {
    if |client| == 0 || client[0].pid == pid then 0 else 1 + SlotOf(client[1..], pid)
  }

  lemma {:induction false} SlotOfIs(client: seq<Client>, pid: int, i: nat)
    requires i < |client| && client[i].pid == pid && forall k | 0 <= k < i :: client[k].pid != pid
    ensures SlotOf(client, pid) == i
  {
    if i > 0 {
      SlotOfIs(client[1..], pid, i - 1);
    }
  }

  lemma {:induction false} FreeSlotIs(client: seq<Client>, i: nat)
    requires i < |client| && client[i].fd == -1 && forall k | 0 <= k < i :: client[k].fd != -1
    ensures FreeSlot(client) == i
  {
    if i > 0 {
      FreeSlotIs(client[1..], i - 1);
    }
  }

  /** sig_chld: a child has ended, by exiting or by a signal. Only an exit is noted, and the server
      quits if no slot remembers the child. */
  function Noted(t: Tables, pid: int, exited: bool, stat: nat): (r: Outcome<Tables>)
    requires Sized(t)
    ensures r.Done? ==> Sized(r.value) && |r.value.client| == |t.client|
  {
    var i := SlotOf(t.client, pid);
    var u := t.(flag := true, running := t.running - {pid});
    if i == |t.client| then (if exited then Fail else Done(u))
    else
      var q := t.conn[i];
      var conn := t.conn[i := q.(ends := q.ends + 1, ok := q.ok || !exited || stat == 0)];
      Done(u.(conn := conn, client := if exited then t.client[i := t.client[i].(childdone := stat + 1)] else t.client))
  }

  // ---- request.c ----

  /** lock_rel, when no process holds two lines. */
  function Without(held: map<CStr, int>, pid: int): map<CStr, int> {
    map l | l in held && held[l] != pid :: held[l]
  }

  function QueryOf(cfg: Config, held: map<CStr, int>, c: Client): Query {
    Query(cfg.file, cfg.devices, held, c.sysname, c.speed)
  }

  /** The search that request() makes for a client. A position that the file cannot have ends the server. */
  function ChoiceFor(cfg: Config, held: map<CStr, int>, c: Client): Choice {
    if c.sysftell < 0 then Broken else Choose(QueryOf(cfg, held, c), c.sysftell, c.foundone, NoMsg)
  }

  /** request(), with fork() returning pid if it is called, and what its callers do when it fails:
      one error is sent and the client removed. */
  function Tried(cfg: Config, t: Tables, i: nat, pid: int): (r: Outcome<Tables>)
    requires Sized(t) && i < |t.client|
    ensures r.Done? ==> Sized(r.value) && |r.value.client| == |t.client| && r.value.maxi == t.maxi
  {
    var c, q := t.client[i], t.conn[i];
    var choice := ChoiceFor(cfg, t.held, c);
    match choice
    case Broken => Fail
    case Dial(line, pos, found) =>
      Done(t.(client := t.client[i := c.(sysftell := pos, foundone := found, pid := pid)], held := t.held[line := pid],
              conn := t.conn[i := q.(forks := q.forks + 1)], running := t.running + {pid}))
    case NoDevice(pos, found, _) => Done(Refused(t, i, c.(sysftell := pos, foundone := found), choice))
    case Exhausted(found, _) => Done(Refused(t, i, c.(sysftell := -1, foundone := found), choice))
  }

  function Refused(t: Tables, i: nat, c: Client, choice: Choice): (r: Tables)
    requires Sized(t) && i < |t.client| && (choice.NoDevice? || choice.Exhausted?)
    ensures Sized(r) && |r.client| == |t.client| && r.maxi == t.maxi
  {
    Closed(t, i, c, true).(sent := t.sent + [(t.client[i].fd, Complaint(choice))])
  }

  /** cli_done: the slot is free, and the descriptor out of the select set. */
  function Closed(t: Tables, i: nat, c: Client, refused: bool): (r: Tables)
    requires Sized(t) && i < |t.client|
    ensures Sized(r) && |r.client| == |t.client|
  {
    t.(client := t.client[i := c.(fd := -1)], allset := t.allset - {t.client[i].fd},
       past := t.past + [Past(t.conn[i], t.client[i].fd, refused)])
  }

  // ---- loop.c ----

  /** What a read from a client yields: the end of the connection, a buffer that is not a proper
      request, or a request for a system at a speed. */
  datatype Input = HangUp | Garbage | Ask(sysname: CStr, speed: CStr)

  /** The loop goes through the slots for two purposes: to deal with exit statuses, and to read from
      the clients that are ready, given what each read yields. */
  datatype Purpose = Settling | Reading(got: map<int, Input>)

  /** What the read of this client yields, if it is read. */
  function InputOf(w: Purpose, c: Client): Option<Input> {
    if w.Reading? && IsLive(c) && c.fd in w.got then Some(w.got[c.fd]) else None
  }

  /** The slot with the options of a new request. */
  function WithRequest(c: Client, sysname: CStr, speed: CStr): Client {
    c.(sysname := sysname, speed := speed, childdone := 0, sysftell := 0, foundone := 0)
  }

  function Asked(t: Tables, i: nat, sysname: CStr, speed: CStr): (r: Tables)
    requires Sized(t) && i < |t.client|
    ensures Sized(r) && |r.client| == |t.client|
  {
    t.(client := t.client[i := WithRequest(t.client[i], sysname, speed)],
       conn := t.conn[i := t.conn[i].(request := Some((sysname, speed)))])
  }

  predicate HasFailed(c: Client) {
    IsLive(c) && c.childdone != 0 && c.childdone != 1
  }

  /** The state in which request() is called for slot i, if it is: after a failed child, with its
      status cleared and its lock released, or after a request has been read. */
  function Turn(w: Purpose, t: Tables, i: nat): (r: Option<Tables>)
    requires Sized(t) && i < |t.client|
    ensures r.Some? ==> Sized(r.value) && |r.value.client| == |t.client| && r.value.maxi == t.maxi
  {
    var c := t.client[i];
    if w.Settling? then
      if !HasFailed(c) then None
      else Some(t.(client := t.client[i := c.(childdone := 0)], held := Without(t.held, c.pid)))
    else
      var input := InputOf(w, c);
      if input.Some? && input.value.Ask? then Some(Asked(t, i, input.value.sysname, input.value.speed)) else None
  }

  /** One slot of a pass of the loop. */
  function Act(cfg: Config, w: Purpose, t: Tables, i: nat, pid: int): (r: Outcome<Tables>)
    requires Sized(t) && i < |t.client|
    ensures r.Done? ==> Sized(r.value) && |r.value.client| == |t.client| && r.value.maxi == t.maxi
  {
    var c, turn, input := t.client[i], Turn(w, t, i), InputOf(w, t.client[i]);
    if turn.Some? then Tried(cfg, turn.value, i, pid)
    else if input.Some? && input.value.Garbage? then Fail
    else if input.Some? then Done(Closed(t.(held := Without(t.held, c.pid)), i, c, false))
    else if w.Settling? && IsLive(c) && c.childdone == 1 then Done(t.(client := t.client[i := c.(childdone := 0)]))
    else Done(t)
  }

  function PidAt(pids: seq<int>, i: nat): int {
    if i < |pids| then pids[i] else 0
  }

  /** A pass over the first n slots, with what fork() returns at each if it is called there. */
  function Sweep(cfg: Config, w: Purpose, t: Tables, pids: seq<int>, n: nat): (r: Outcome<Tables>)
    requires Sized(t) && n <= |t.client|
    ensures r.Done? ==> Sized(r.value) && |r.value.client| == |t.client| && r.value.maxi == t.maxi
  {
    if n == 0 then Done(t)
    else
      match Sweep(cfg, w, t, pids, n - 1)
      case Fail => Fail
      case Done(u) => Act(cfg, w, u, n - 1, PidAt(pids, n - 1))
  }

  /** A child ends, child_done runs, a connection arrives, or the clients that are ready are read. */
  datatype Move =
    | Exit(pid: int, exited: bool, stat: nat)
    | Settle(pids: seq<int>)
    | Arrive(fd: int, uid: int)
    | Hear(got: map<int, Input>, pids: seq<int>)

  function Apply(cfg: Config, t: Tables, m: Move): (r: Outcome<Tables>)
    requires Sized(t)
    ensures r.Done? ==> Sized(r.value)
  {
    match m
    case Exit(pid, exited, stat) => Noted(t, pid, exited, stat)
    case Settle(pids) => Sweep(cfg, Settling, t.(flag := false), pids, t.maxi + 1)
    case Arrive(fd, uid) => Done(Joined(cfg, t, fd, uid))
    case Hear(got, pids) => Sweep(cfg, Reading(got), t, pids, t.maxi + 1)
  }

  /** A run of the server; Fail if it quits. */
  function Run(cfg: Config, t: Tables, moves: seq<Move>): (r: Outcome<Tables>)
    requires Sized(t)
    ensures r.Done? ==> Sized(r.value)
  {
    if |moves| == 0 then Done(t)
    else
      match Run(cfg, t, moves[..|moves| - 1])
      case Fail => Fail
      case Done(u) => Apply(cfg, u, moves[|moves| - 1])
  }

  // ---- What can happen, and what polite clients do ----

  /** fork() returns a pid that holds no line. */
  predicate FreshPid(held: map<CStr, int>, pid: int) {
    pid > 0 && forall l | l in held :: held[l] != pid
  }

  /** The protocol as clients keep it: one request a connection, and no hang-up before the child
      dialing for the connection has ended and its status has been dealt with. */
  predicate Polite(c: Client, q: Conn, running: set<int>, input: Input) {
    && (input.Ask? ==> q.request.None?)
    && (input.HangUp? && q.request.Some? ==> c.pid !in running && c.childdone == 0)
  }

  /** What may happen at one slot; in a polite run clients keep the protocol and no slot remembers
      a new child's pid. */
  predicate MayAct(cfg: Config, w: Purpose, t: Tables, i: nat, pid: int, polite: bool)
    requires Sized(t) && i < |t.client|
  {
    var turn, input := Turn(w, t, i), InputOf(w, t.client[i]);
    && (turn.Some? && ChoiceFor(cfg, turn.value.held, turn.value.client[i]).Dial? ==>
          FreshPid(turn.value.held, pid) && (polite ==> forall k | 0 <= k < |t.client| :: t.client[k].pid != pid))
    && (polite && input.Some? ==> Polite(t.client[i], t.conn[i], t.running, input.value))
  }

  predicate MaySweep(cfg: Config, w: Purpose, t: Tables, pids: seq<int>, n: nat, polite: bool)
    requires Sized(t) && n <= |t.client|
  {
    n == 0 ||
    (MaySweep(cfg, w, t, pids, n - 1, polite) &&
     var u := Sweep(cfg, w, t, pids, n - 1);
     u.Done? ==> MayAct(cfg, w, u.value, n - 1, PidAt(pids, n - 1), polite))
  }

  /** What may happen next: accept() returns a descriptor that is not open, and fork() fresh pids.
      In a polite run only running children end. */
  predicate May(cfg: Config, t: Tables, m: Move, polite: bool)
    requires Sized(t)
  {
    match m
    case Exit(pid, _, _) => polite ==> pid in t.running
    case Settle(pids) => MaySweep(cfg, Settling, t.(flag := false), pids, t.maxi + 1, polite)
    case Arrive(fd, _) => fd >= 0 && fd !in t.allset
    case Hear(got, pids) => MaySweep(cfg, Reading(got), t, pids, t.maxi + 1, polite)
  }

  predicate MayRun(cfg: Config, t: Tables, moves: seq<Move>, polite: bool)
    requires Sized(t)
  {
    |moves| == 0 ||
    (MayRun(cfg, t, moves[..|moves| - 1], polite) &&
     var u := Run(cfg, t, moves[..|moves| - 1]);
     u.Done? ==> May(cfg, u.value, moves[|moves| - 1], polite))
  }

  // ---- What every run keeps ----

  /** The select set is the listening descriptor and those of the live clients, which are distinct,
      and the two maxima bound what they are used to bound. */
  ghost predicate TableSound(cfg: Config, t: Tables) {
    && (forall i | 0 <= i < |t.client| :: t.client[i].fd == -1
          || (t.client[i].fd >= 0 && t.client[i].fd != cfg.listenfd && t.client[i].fd in t.allset
              && t.client[i].fd <= t.maxfd && i <= t.maxi))
    && (forall i, k | 0 <= i < k < |t.client| && IsLive(t.client[i]) :: t.client[i].fd != t.client[k].fd)
    && cfg.listenfd in t.allset && 0 <= cfg.listenfd <= t.maxfd
    && (forall fd | fd in t.allset && fd != cfg.listenfd :: exists i :: 0 <= i < |t.client| && t.client[i].fd == fd)
    && (forall fd | fd in t.allset :: fd >= 0)
  }

  /** Held lines have holders, and no process holds two. */
  ghost predicate OneLine(held: map<CStr, int>) {
    && (forall l | l in held :: held[l] != 0)
    && (forall k, l | k in held && l in held && held[k] == held[l] :: k == l)
  }

  ghost predicate Safe(cfg: Config, t: Tables) {
    Sized(t) && TableSound(cfg, t) && OneLine(t.held)
  }

  lemma StartIsSafe(cfg: Config)
    requires cfg.listenfd >= 0
    ensures Safe(cfg, Start(cfg))
  {
  }

  lemma JoinedTable(cfg: Config, t: Tables, fd: int, uid: int)
    requires Sized(t) && TableSound(cfg, t) && fd >= 0 && fd !in t.allset
    ensures TableSound(cfg, Joined(cfg, t, fd, uid))
  {
    hide TableSound;
    var room := Roomy(t.client, cfg.fill);
    RoomyTable(cfg, t, room);
    AddedTable(cfg, t.(client := room), Joined(cfg, t, fd, uid), FreeSlot(t.client), fd);
  }

  lemma RoomyTable(cfg: Config, t: Tables, room: seq<Client>)
    requires TableSound(cfg, t) && |room| >= |t.client|
    requires forall k | 0 <= k < |t.client| :: room[k] == t.client[k]
    requires forall k | |t.client| <= k < |room| :: room[k].fd == -1
    ensures TableSound(cfg, t.(client := room))
  {
    forall f | f in t.allset && f != cfg.listenfd ensures exists k :: 0 <= k < |room| && room[k].fd == f {
      var k :| 0 <= k < |t.client| && t.client[k].fd == f;
      assert room[k].fd == f;
    }
  }

  lemma AddedTable(cfg: Config, t: Tables, u: Tables, i: nat, fd: int)
    requires TableSound(cfg, t) && i < |t.client| && t.client[i].fd == -1 && fd >= 0 && fd !in t.allset
    requires |u.client| == |t.client| && u.client == t.client[i := u.client[i]] && u.client[i].fd == fd
    requires u.allset == t.allset + {fd} && u.maxfd == Max(fd, t.maxfd) && u.maxi == Max(i, t.maxi)
    ensures TableSound(cfg, u)
  {
    forall k | 0 <= k < |u.client| && k != i ensures u.client[k] == t.client[k] {}
    forall f | f in u.allset && f != cfg.listenfd ensures exists k :: 0 <= k < |u.client| && u.client[k].fd == f {
      if f == fd {
        assert u.client[i].fd == f;
      } else {
        var k :| 0 <= k < |t.client| && t.client[k].fd == f;
        assert u.client[k] == t.client[k];
      }
    }
  }

  /** The table and select set see only descriptors. */
  lemma SameFds(cfg: Config, t: Tables, u: Tables)
    requires TableSound(cfg, t)
    requires |u.client| == |t.client| && u.allset == t.allset && u.maxfd == t.maxfd && u.maxi == t.maxi
    requires forall k | 0 <= k < |t.client| :: u.client[k].fd == t.client[k].fd
    ensures TableSound(cfg, u)
  {
    forall fd | fd in u.allset && fd != cfg.listenfd ensures exists k :: 0 <= k < |u.client| && u.client[k].fd == fd {
      var k :| 0 <= k < |t.client| && t.client[k].fd == fd;
      assert u.client[k].fd == fd;
    }
  }

  lemma ClosedTable(cfg: Config, t: Tables, i: nat, c: Client, refused: bool)
    requires Sized(t) && TableSound(cfg, t) && i < |t.client| && IsLive(t.client[i])
    ensures TableSound(cfg, Closed(t, i, c, refused))
  {
    var u, gone := Closed(t, i, c, refused), t.client[i].fd;
    forall k | 0 <= k < |u.client| && k != i ensures u.client[k] == t.client[k] && u.client[k].fd != gone {
      OneFd(cfg, t, i, k);
    }
    forall fd | fd in u.allset && fd != cfg.listenfd ensures exists k :: 0 <= k < |u.client| && u.client[k].fd == fd {
      var k :| 0 <= k < |t.client| && t.client[k].fd == fd;
      assert u.client[k] == t.client[k];
    }
  }

  /** No other slot has a live client's descriptor. */
  lemma OneFd(cfg: Config, t: Tables, i: nat, k: nat)
    requires TableSound(cfg, t) && i < |t.client| && k < |t.client| && IsLive(t.client[i])
    ensures t.client[k].fd == t.client[i].fd ==> k == i
  {
    assert forall a, b | 0 <= a < b < |t.client| && IsLive(t.client[a]) :: t.client[a].fd != t.client[b].fd;
  }

  lemma WithoutOneLine(held: map<CStr, int>, pid: int)
    requires OneLine(held)
    ensures OneLine(Without(held, pid))
    ensures forall l | l in Without(held, pid) :: l in held && held[l] == Without(held, pid)[l] != pid
  {
  }

  /** request() takes no line away from anybody. */
  lemma TakesFreeLine(cfg: Config, t: Tables, i: nat, pid: int)
    requires Sized(t) && OneLine(t.held) && i < |t.client|
    ensures var r := Tried(cfg, t, i, pid);
            r.Done? ==> forall l | l in t.held :: l in r.value.held && r.value.held[l] == t.held[l]
  {
    hide Choose, Complaint;
    var c := t.client[i];
    if c.sysftell >= 0 {
      DialsFreeLine(QueryOf(cfg, t.held, c), c.sysftell, c.foundone, NoMsg);
    }
  }

  lemma TriedSafe(cfg: Config, t: Tables, i: nat, pid: int)
    requires Safe(cfg, t) && i < |t.client| && IsLive(t.client[i])
    requires ChoiceFor(cfg, t.held, t.client[i]).Dial? ==> FreshPid(t.held, pid)
    ensures Tried(cfg, t, i, pid).Done? ==> Safe(cfg, Tried(cfg, t, i, pid).value)
  {
    hide ChoiceFor, TableSound, Complaint;
    var r := Tried(cfg, t, i, pid);
    if r.Done? {
      if ChoiceFor(cfg, t.held, t.client[i]).Dial? {
        SameFds(cfg, t, r.value);
      } else {
        ClosedTable(cfg, t, i, r.value.client[i], true);
        SameFds(cfg, Closed(t, i, r.value.client[i], true), r.value);
      }
    }
  }

  lemma TurnSafe(cfg: Config, w: Purpose, t: Tables, i: nat)
    requires Safe(cfg, t) && i < |t.client| && Turn(w, t, i).Some?
    ensures Safe(cfg, Turn(w, t, i).value) && IsLive(Turn(w, t, i).value.client[i])
  {
    hide TableSound, Without;
    var u := Turn(w, t, i).value;
    SameFds(cfg, t, u);
    WithoutOneLine(t.held, t.client[i].pid);
  }

  lemma ActSafe(cfg: Config, w: Purpose, t: Tables, i: nat, pid: int)
    requires Safe(cfg, t) && i < |t.client| && MayAct(cfg, w, t, i, pid, false)
    ensures Act(cfg, w, t, i, pid).Done? ==> Safe(cfg, Act(cfg, w, t, i, pid).value)
  {
    hide Turn, Tried, ChoiceFor, TableSound, Closed, Without, FreshPid;
    var c, r := t.client[i], Act(cfg, w, t, i, pid);
    if Turn(w, t, i).Some? {
      TurnSafe(cfg, w, t, i);
      TriedSafe(cfg, Turn(w, t, i).value, i, pid);
    } else if InputOf(w, c).Some? {
      var u := t.(held := Without(t.held, c.pid));
      WithoutOneLine(t.held, c.pid);
      SameFds(cfg, t, u);
      ClosedTable(cfg, u, i, c, false);
      ClosedHeld(u, i, c, false);
    } else if r.Done? {
      SameFds(cfg, t, r.value);
    }
  }

  lemma ClosedHeld(t: Tables, i: nat, c: Client, refused: bool)
    requires Sized(t) && i < |t.client|
    ensures Closed(t, i, c, refused).held == t.held
  {
  }

  /** Politeness only adds conditions. */
  lemma {:induction false} MaySweepAnyway(cfg: Config, w: Purpose, t: Tables, pids: seq<int>, n: nat)
    requires Sized(t) && n <= |t.client| && MaySweep(cfg, w, t, pids, n, true)
    ensures MaySweep(cfg, w, t, pids, n, false)
  {
    hide Sweep, Turn, ChoiceFor, FreshPid, Polite;
    if n > 0 {
      MaySweepAnyway(cfg, w, t, pids, n - 1);
    }
  }

  lemma {:induction false} SweepSafe(cfg: Config, w: Purpose, t: Tables, pids: seq<int>, n: nat)
    requires Safe(cfg, t) && n <= |t.client| && MaySweep(cfg, w, t, pids, n, false)
    ensures Sweep(cfg, w, t, pids, n).Done? ==> Safe(cfg, Sweep(cfg, w, t, pids, n).value)
  {
    hide Act, MayAct, TableSound, OneLine;
    if n > 0 {
      SweepSafe(cfg, w, t, pids, n - 1);
      if Sweep(cfg, w, t, pids, n - 1).Done? {
        ActSafe(cfg, w, Sweep(cfg, w, t, pids, n - 1).value, n - 1, PidAt(pids, n - 1));
      }
    }
  }

  /** Whatever may happen keeps select set, maxima, table and locks in agreement, whether or not
      clients are polite. */
  lemma ApplySafe(cfg: Config, t: Tables, m: Move)
    requires Safe(cfg, t) && May(cfg, t, m, false)
    ensures Apply(cfg, t, m).Done? ==> Safe(cfg, Apply(cfg, t, m).value)
  {
    hide Sweep, MaySweep, TableSound, OneLine, Joined;
    match m
    case Exit(pid, exited, stat) =>
      if Apply(cfg, t, m).Done? {
        SameFds(cfg, t, Apply(cfg, t, m).value);
      }
    case Settle(pids) =>
      SameFds(cfg, t, t.(flag := false));
      SweepSafe(cfg, Settling, t.(flag := false), pids, t.maxi + 1);
    case Arrive(fd, uid) =>
      JoinedTable(cfg, t, fd, uid);
      JoinedHeld(cfg, t, fd, uid);
    case Hear(got, pids) => SweepSafe(cfg, Reading(got), t, pids, t.maxi + 1);
  }

  lemma JoinedHeld(cfg: Config, t: Tables, fd: int, uid: int)
    requires Sized(t)
    ensures Joined(cfg, t, fd, uid).held == t.held
  {
  }

  lemma {:induction false} RunSafe(cfg: Config, t: Tables, moves: seq<Move>)
    requires Safe(cfg, t) && MayRun(cfg, t, moves, false)
    ensures Run(cfg, t, moves).Done? ==> Safe(cfg, Run(cfg, t, moves).value)
  {
    hide Apply, May, TableSound, OneLine;
    if |moves| > 0 {
      RunSafe(cfg, t, moves[..|moves| - 1]);
      if Run(cfg, t, moves[..|moves| - 1]).Done? {
        ApplySafe(cfg, Run(cfg, t, moves[..|moves| - 1]).value, moves[|moves| - 1]);
      }
    }
  }

  // ---- Errors sent ----

  /** The descriptors of refused connections, in the order in which they ended. */
  function RefusedFds(past: seq<Past>): seq<int> {
    if |past| == 0 then []
    else RefusedFds(past[..|past| - 1]) + if past[|past| - 1].refused then [past[|past| - 1].fd] else []
  }

  /** One real error message was sent to each refused connection when it ended, and nothing else;
      no two connections, live or past, are the same. */
  ghost predicate Accurate(t: Tables) {
    && Sized(t)
    && |t.sent| == |RefusedFds(t.past)|
    && (forall k | 0 <= k < |t.sent| :: t.sent[k].0 == RefusedFds(t.past)[k] && t.sent[k].1 != NoMsg)
    && (forall i | 0 <= i < |t.client| && IsLive(t.client[i]) :: t.conn[i].id < t.arrivals)
    && (forall i, k | 0 <= i < |t.client| && 0 <= k < |t.client| && i != k && IsLive(t.client[i])
        && IsLive(t.client[k]) ::
          t.conn[i].id != t.conn[k].id)
    && (forall k | 0 <= k < |t.past| :: t.past[k].conn.id < t.arrivals)
    && (forall j, k | 0 <= j < |t.past| && 0 <= k < |t.past| && j != k :: t.past[j].conn.id != t.past[k].conn.id)
    && (forall i, k | 0 <= i < |t.client| && 0 <= k < |t.past| && IsLive(t.client[i]) ::
          t.conn[i].id != t.past[k].conn.id)
  }

  /** How many error messages a connection has been sent. */
  function Notices(past: seq<Past>, id: nat): nat {
    if |past| == 0 then 0
    else Notices(past[..|past| - 1], id) + if past[|past| - 1].refused && past[|past| - 1].conn.id == id then 1 else 0
  }

  lemma {:induction false} NoticesNone(past: seq<Past>, id: nat)
    requires forall k | 0 <= k < |past| :: past[k].conn.id != id
    ensures Notices(past, id) == 0
  {
    if |past| > 0 {
      NoticesNone(past[..|past| - 1], id);
    }
  }

  lemma {:induction false} NoticesOne(past: seq<Past>, k: nat)
    requires k < |past| && forall j | 0 <= j < |past| && j != k :: past[j].conn.id != past[k].conn.id
    ensures Notices(past, past[k].conn.id) == if past[k].refused then 1 else 0
  {
    if k < |past| - 1 {
      NoticesOne(past[..|past| - 1], k);
    } else {
      NoticesNone(past[..k], past[k].conn.id);
    }
  }

  /** A change that touches neither who is connected nor what was sent. */
  lemma SameConnections(t: Tables, u: Tables)
    requires Accurate(t) && Sized(u) && |u.client| == |t.client|
    requires u.past == t.past && u.sent == t.sent && u.arrivals == t.arrivals
    requires forall k | 0 <= k < |t.client| :: u.client[k].fd == t.client[k].fd && u.conn[k].id == t.conn[k].id
    ensures Accurate(u)
  {
  }

  lemma ClosedAccurate(t: Tables, u: Tables, i: nat, refused: bool, msg: ErrMsg)
    requires Accurate(t) && Sized(u) && i < |t.client| && IsLive(t.client[i]) && msg != NoMsg
    requires |u.client| == |t.client| && u.client == t.client[i := u.client[i]] && u.client[i].fd == -1
             && u.conn == t.conn && u.arrivals == t.arrivals
    requires u.past == t.past + [Past(t.conn[i], t.client[i].fd, refused)]
    requires u.sent == if refused then t.sent + [(t.client[i].fd, msg)] else t.sent
    ensures Accurate(u)
  {
    assert u.past[..|t.past|] == t.past;
  }

  lemma ActAccurate(cfg: Config, w: Purpose, t: Tables, i: nat, pid: int)
    requires Accurate(t) && i < |t.client|
    ensures Act(cfg, w, t, i, pid).Done? ==> Accurate(Act(cfg, w, t, i, pid).value)
  {
    hide ChoiceFor, Without, Accurate, Complaint;
    AccurateSized(t);
    var r, c := Act(cfg, w, t, i, pid), t.client[i];
    if r.Done? {
      var turn := Turn(w, t, i);
      if turn.Some? {
        var u := turn.value;
        SameConnections(t, u);
        var choice := ChoiceFor(cfg, u.held, u.client[i]);
        if choice.Dial? {
          SameConnections(u, r.value);
        } else {
          ComplaintIsText(choice);
          ClosedAccurate(u, r.value, i, true, Complaint(choice));
        }
      } else if InputOf(w, c).Some? {
        ClosedAccurate(t, r.value, i, false, NotFound);
      } else {
        SameConnections(t, r.value);
      }
    }
  }

  lemma AccurateSized(t: Tables)
    requires Accurate(t)
    ensures Sized(t)
  {
  }

  lemma ComplaintIsText(choice: Choice)
    requires choice.NoDevice? || choice.Exhausted?
    ensures Complaint(choice) != NoMsg
  {
  }

  lemma {:induction false} SweepAccurate(cfg: Config, w: Purpose, t: Tables, pids: seq<int>, n: nat)
    requires Accurate(t) && n <= |t.client|
    ensures Sweep(cfg, w, t, pids, n).Done? ==> Accurate(Sweep(cfg, w, t, pids, n).value)
  {
    hide Act, Accurate;
    AccurateSized(t);
    if n > 0 {
      SweepAccurate(cfg, w, t, pids, n - 1);
      if Sweep(cfg, w, t, pids, n - 1).Done? {
        ActAccurate(cfg, w, Sweep(cfg, w, t, pids, n - 1).value, n - 1, PidAt(pids, n - 1));
      }
    }
  }

  lemma ApplyAccurate(cfg: Config, t: Tables, m: Move)
    requires Accurate(t) && Safe(cfg, t)
    ensures Apply(cfg, t, m).Done? ==> Accurate(Apply(cfg, t, m).value)
  {
    hide Sweep, Accurate, TableSound;
    match m
    case Exit(pid, exited, stat) =>
      if Apply(cfg, t, m).Done? {
        SameConnections(t, Apply(cfg, t, m).value);
      }
    case Settle(pids) =>
      SameConnections(t, t.(flag := false));
      SweepAccurate(cfg, Settling, t.(flag := false), pids, t.maxi + 1);
    case Arrive(fd, uid) => JoinedAccurate(cfg, t, fd, uid);
    case Hear(got, pids) => SweepAccurate(cfg, Reading(got), t, pids, t.maxi + 1);
  }

  lemma JoinedAccurate(cfg: Config, t: Tables, fd: int, uid: int)
    requires Accurate(t)
    ensures Accurate(Joined(cfg, t, fd, uid))
  {
    var u, i := Joined(cfg, t, fd, uid), FreeSlot(t.client);
    forall k | 0 <= k < |u.client| && IsLive(u.client[k]) && k != i
      ensures k < |t.client| && u.client[k] == t.client[k] && u.conn[k] == t.conn[k]
    {
      assert u.client[k] == Roomy(t.client, cfg.fill)[k];
    }
  }

  /** In every run whatever, each connection is sent at most one error, and is sent one exactly when
      the server ends it. */
  lemma {:induction false} RunAccurate(cfg: Config, moves: seq<Move>)
    requires cfg.listenfd >= 0 && MayRun(cfg, Start(cfg), moves, false)
    ensures Run(cfg, Start(cfg), moves).Done? ==> Accurate(Run(cfg, Start(cfg), moves).value)
  {
    hide Apply, May, Accurate, Safe;
    StartIsSafe(cfg);
    if |moves| > 0 {
      RunAccurate(cfg, moves[..|moves| - 1]);
      RunSafe(cfg, Start(cfg), moves[..|moves| - 1]);
      if Run(cfg, Start(cfg), moves[..|moves| - 1]).Done? {
        ApplyAccurate(cfg, Run(cfg, Start(cfg), moves[..|moves| - 1]).value, moves[|moves| - 1]);
      }
    } else {
      StartIsAccurate(cfg);
    }
  }

  lemma StartIsAccurate(cfg: Config)
    ensures Accurate(Start(cfg))
  {
  }
}
