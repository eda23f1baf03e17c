/** The file tree walk of iterdir.c: a recursion whose levels all edit one path buffer. */
module Walk {
  import opened Text

  const SLASH: byte := 47
  const DOT: byte := 46

  datatype FileKind = Regular | Block | Character | Fifo | Link | Socket

  /** What lstat, opendir and readdir find at a path. */
  datatype Node = NoStat | File(kind: FileKind) | Dir(readable: bool, entries: seq<Entry>)

  datatype Entry = Entry(name: seq<byte>, node: Node)

  datatype Type = FtwF(kind: FileKind) | FtwD | FtwDnr | FtwNs

  /** One call of the callback. */
  datatype Call = Call(path: seq<byte>, kind: Type)

  predicate IsDot(e: Entry) {
    e.name == [DOT] || e.name == [DOT, DOT]
  }

  // ---- The walk without a buffer ----

  /** Preorder: a directory before its entries, in directory order, without "." and "..". */
  function Visits(path: seq<byte>, node: Node): seq<Call>
    decreases node, 1
  {
    match node
    case NoStat => [Call(path, FtwNs)]
    case File(kind) => [Call(path, FtwF(kind))]
    case Dir(readable, entries) =>
      [Call(path, FtwD)]
      + if readable then VisitAll(path + [SLASH], entries) else [Call(path + [SLASH], FtwDnr)]
  }

  function VisitAll(prefix: seq<byte>, entries: seq<Entry>): seq<Call>
    decreases entries, 0
  {
    if |entries| == 0 then [] else
      (if IsDot(entries[0]) then [] else Visits(prefix + entries[0].name, entries[0].node))
      + VisitAll(prefix, entries[1..])
  }

  /** The calls up to the first one with a nonzero result, and that result; all of them and 0 otherwise. */
  function Cut(calls: seq<Call>, func: Call -> int): (seq<Call>, int) {
    if |calls| == 0 then ([], 0)
    else if func(calls[0]) != 0 then ([calls[0]], func(calls[0]))
    else
      var (more, r) := Cut(calls[1..], func);
      ([calls[0]] + more, r)
  }

  lemma {:induction false} CutConcat(a: seq<Call>, b: seq<Call>, func: Call -> int)
    ensures Cut(a + b, func) == if Cut(a, func).1 != 0 then Cut(a, func) else (a + Cut(b, func).0, Cut(b, func).1)
  {
    if |a| == 0 {
      assert a + b == b;
      assert a + Cut(b, func).0 == Cut(b, func).0;
    } else {
      assert (a + b)[1..] == a[1..] + b;
      CutConcat(a[1..], b, func);
      assert [a[0]] + (a[1..] + Cut(b, func).0) == a + Cut(b, func).0;
    }
  }

  lemma {:induction false} CutAll(calls: seq<Call>, func: Call -> int)
    ensures Cut(calls, func).1 == 0 ==> Cut(calls, func).0 == calls
    ensures (forall c :: func(c) == 0) ==> Cut(calls, func).1 == 0
  {
    if |calls| > 0 {
      CutAll(calls[1..], func);
    }
  }

  lemma {:induction false} VisitAllSnoc(prefix: seq<byte>, entries: seq<Entry>, n: nat)
    requires n < |entries|
    ensures VisitAll(prefix, entries[..n + 1])
            == VisitAll(prefix, entries[..n])
               + if IsDot(entries[n]) then [] else Visits(prefix + entries[n].name, entries[n].node)
    decreases n
  {
    hide Visits;
    var last := if IsDot(entries[n]) then [] else Visits(prefix + entries[n].name, entries[n].node);
    if n == 0 {
      assert entries[..1][0] == entries[0] && entries[..1][1..] == [];
      assert last + [] == last && [] + last == last;
    } else {
      assert entries[..n + 1][1..] == entries[1..][..n] && entries[..n][1..] == entries[1..][..n - 1];
      VisitAllSnoc(prefix, entries[1..], n - 1);
      var first := if IsDot(entries[0]) then [] else Visits(prefix + entries[0].name, entries[0].node);
      assert first + (VisitAll(prefix, entries[1..][..n - 1]) + last)
               == first + VisitAll(prefix, entries[1..][..n - 1]) + last;
    }
  }

  // ---- Counting ----

  datatype Counters = Counters(nreg: nat, nblk: nat, nchr: nat, nfifo: nat, nslink: nat, nsock: nat, ndir: nat)

  const NONE := Counters(0, 0, 0, 0, 0, 0, 0)

  function Count(c: Counters, kind: Type): Counters {
    match kind
    case FtwF(Regular) => c.(nreg := c.nreg + 1)
    case FtwF(Block) => c.(nblk := c.nblk + 1)
    case FtwF(Character) => c.(nchr := c.nchr + 1)
    case FtwF(Fifo) => c.(nfifo := c.nfifo + 1)
    case FtwF(Link) => c.(nslink := c.nslink + 1)
    case FtwF(Socket) => c.(nsock := c.nsock + 1)
    case FtwD => c.(ndir := c.ndir + 1)
    case _ => c
  }

  function Total(c: Counters): nat {
    c.nreg + c.nblk + c.nchr + c.nfifo + c.nslink + c.nsock + c.ndir
  }

  function CountAll(c: Counters, calls: seq<Call>): Counters {
    if |calls| == 0 then c else Count(CountAll(c, calls[..|calls| - 1]), calls[|calls| - 1].kind)
  }

  /** The nodes of the tree that lstat succeeds on. */
  function Statable(node: Node): nat {
    match node
    case NoStat => 0
    case File(_) => 1
    case Dir(readable, entries) => 1 + if readable then StatableAll(entries) else 0
  }

  function StatableAll(entries: seq<Entry>): nat {
    if |entries| == 0 then 0
        else (if IsDot(entries[0]) then 0 else Statable(entries[0].node)) + StatableAll(entries[1..])
  }

  lemma {:induction false} CountConcat(c: Counters, a: seq<Call>, b: seq<Call>)
    ensures CountAll(c, a + b) == CountAll(CountAll(c, a), b)
    decreases b
  {
    hide Count;
    if |b| == 0 {
      assert a + b == a;
    } else {
      var n := |b| - 1;
      assert (a + b)[..|a + b| - 1] == a + b[..n];
      CountConcat(c, a, b[..n]);
    }
  }

  lemma CountNone(c: Counters)
    ensures CountAll(c, []) == c
  {
  }

  lemma CountOne(c: Counters, call: Call)
    ensures CountAll(c, [call]) == Count(c, call.kind)
    ensures Total(Count(c, call.kind)) == Total(c) + if call.kind.FtwF? || call.kind.FtwD? then 1 else 0
  {
    assert [call][..0] == [];
    assert CountAll(c, []) == c;
  }

  /** How many files of this kind there are in a tree, below readable directories. */
  function Files(node: Node, kind: FileKind): nat {
    match node
    case NoStat => 0
    case File(k) => if k == kind then 1 else 0
    case Dir(readable, entries) => if readable then FilesIn(entries, kind) else 0
  }

  function FilesIn(entries: seq<Entry>, kind: FileKind): nat {
    if |entries| == 0 then 0
    else (if IsDot(entries[0]) then 0 else Files(entries[0].node, kind)) + FilesIn(entries[1..], kind)
  }

  /** How many directories there are, readable or not. */
  function Dirs(node: Node): nat {
    match node
    case NoStat => 0
    case File(_) => 0
    case Dir(readable, entries) => 1 + if readable then DirsIn(entries) else 0
  }

  function DirsIn(entries: seq<Entry>): nat {
    if |entries| == 0 then 0
    else (if IsDot(entries[0]) then 0 else Dirs(entries[0].node)) + DirsIn(entries[1..])
  }

  /** Each counter has grown by the number of files of its own kind, or of directories. */
  ghost predicate Adds(c: Counters, c': Counters, files: FileKind -> int, dirs: int) {
    && c'.nreg == c.nreg + files(Regular) && c'.nblk == c.nblk + files(Block)
    && c'.nchr == c.nchr + files(Character) && c'.nfifo == c.nfifo + files(Fifo)
    && c'.nslink == c.nslink + files(Link) && c'.nsock == c.nsock + files(Socket)
    && c'.ndir == c.ndir + dirs
  }

  lemma CountTypes(c: Counters, path: seq<byte>)
    ensures forall kind :: Adds(c, CountAll(c, [Call(path, FtwF(kind))]), k => if k == kind then 1 else 0, 0)
    ensures Adds(c, CountAll(c, [Call(path, FtwD)]), _ => 0, 1)
    ensures CountAll(c, [Call(path, FtwNs)]) == CountAll(c, [Call(path, FtwDnr)]) == c
  {
    forall kind ensures CountAll(c, [Call(path, FtwF(kind))]) == Count(c, FtwF(kind)) {
      CountOne(c, Call(path, FtwF(kind)));
    }
    CountOne(c, Call(path, FtwD));
    CountOne(c, Call(path, FtwNs));
    CountOne(c, Call(path, FtwDnr));
  }

  /** Every file and directory that lstat succeeds on is counted exactly once, under its own type. */
  lemma {:induction false} CountsAreComplete(c: Counters, path: seq<byte>, node: Node)
    ensures Adds(c, CountAll(c, Visits(path, node)), k => Files(node, k), Dirs(node))
    ensures Total(CountAll(c, Visits(path, node))) == Total(c) + Statable(node)
    decreases node, 1
  {
    hide Count, Total, CountAll;
    CountTypes(c, path);
    match node
    case NoStat => CountOne(c, Call(path, FtwNs));
    case File(kind) => CountOne(c, Call(path, FtwF(kind)));
    case Dir(readable, entries) =>
      var first := Call(path, FtwD);
      var c1 := CountAll(c, [first]);
      CountOne(c, first);
      CountTypes(c1, path + [SLASH]);
      if readable {
        CountConcat(c, [first], VisitAll(path + [SLASH], entries));
        CountsInDir(c1, path + [SLASH], entries);
      } else {
        CountConcat(c, [first], [Call(path + [SLASH], FtwDnr)]);
        CountOne(c1, Call(path + [SLASH], FtwDnr));
      }
  }

  lemma {:induction false} CountsInDir(c: Counters, prefix: seq<byte>, entries: seq<Entry>)
    ensures Adds(c, CountAll(c, VisitAll(prefix, entries)), k => FilesIn(entries, k), DirsIn(entries))
    ensures Total(CountAll(c, VisitAll(prefix, entries))) == Total(c) + StatableAll(entries)
    decreases entries, 0
  {
    hide Count, Total, CountAll, Visits, Statable, Files, Dirs, IsDot;
    if |entries| == 0 {
      CountNone(c);
    } else {
      var e, rest := entries[0], VisitAll(prefix, entries[1..]);
      if IsDot(e) {
        assert [] + rest == rest;
        CountsInDir(c, prefix, entries[1..]);
      } else {
        var here := Visits(prefix + e.name, e.node);
        CountConcat(c, here, rest);
        CountsAreComplete(c, prefix + e.name, e.node);
        CountsInDir(CountAll(c, here), prefix, entries[1..]);
      }
    }
  }

  // ---- Which calls are made ----

  /** Going down from a node by these names, none of them "." or "..", leads to this node. */
  ghost predicate Reached(node: Node, names: seq<seq<byte>>, target: Node)
    decreases |names|
  {
    if |names| == 0 then node == target
    else
      && node.Dir? && node.readable && names[0] != [46] && names[0] != [46, 46]
      && exists e :: e in node.entries && e.name == names[0] && Reached(e.node, names[1..], target)
  }

  /** The path that leads there, every name after a slash. */
  function PathTo(path: seq<byte>, names: seq<seq<byte>>): seq<byte>
    decreases |names|
  {
    if |names| == 0 then path else PathTo(path + [47] + names[0], names[1..])
  }

  /** The type that a node is reported under at its path; an unreadable directory is reported once
      more, with a slash. */
  predicate Reports(path: seq<byte>, target: Node, call: Call) {
    match target
    case NoStat => call == Call(path, FtwNs)
    case File(kind) => call == Call(path, FtwF(kind))
    case Dir(readable, _) => call == Call(path, FtwD) || (!readable && call == Call(path + [47], FtwDnr))
  }

  ghost predicate ReportsBelow(path: seq<byte>, node: Node, names: seq<seq<byte>>, target: Node, call: Call) {
    Reached(node, names, target) && Reports(PathTo(path, names), target, call)
  }

  /** The callback is called for exactly the nodes that can be reached by names other than "." and
      "..", each with its own path and under its own type. */
  lemma {:induction false} VisitsMean(path: seq<byte>, node: Node, call: Call)
    ensures call in Visits(path, node) <==> exists names, target :: ReportsBelow(path, node, names, target, call)
    decreases node, 1
  {
    hide Reached, PathTo;
    ReachedHere(path, node);
    if node.Dir? && node.readable {
      VisitsInDir(path, node.entries, call);
      if call == Call(path, FtwD) {
        assert ReportsBelow(path, node, [], node, call);
      }
      forall names, target | ReportsIn(path, node.entries, names, target, call)
        ensures ReportsBelow(path, node, names, target, call)
      {
        BelowIsIn(path, node, names, target, call);
      }
      forall names, target | ReportsBelow(path, node, names, target, call)
        ensures call == Call(path, FtwD) || ReportsIn(path, node.entries, names, target, call)
      {
        BelowIsIn(path, node, names, target, call);
      }
    } else {
      if call in Visits(path, node) {
        assert ReportsBelow(path, node, [], node, call);
      }
      forall names, target | ReportsBelow(path, node, names, target, call) ensures call in Visits(path, node) {
        ReachedLeaf(node, names, target);
      }
    }
  }

  lemma BelowIsIn(path: seq<byte>, node: Node, names: seq<seq<byte>>, target: Node, call: Call)
    requires node.Dir? && node.readable
    ensures names != [] ==>
              (ReportsBelow(path, node, names, target, call) <==> ReportsIn(path, node.entries, names, target, call))
    ensures names == [] ==>
              (ReportsBelow(path, node, names, target, call) <==> target == node && call == Call(path, FtwD))
    ensures names == [] ==> !ReportsIn(path, node.entries, names, target, call)
  {
  }

  lemma ReachedHere(path: seq<byte>, node: Node)
    ensures Reached(node, [], node) && PathTo(path, []) == path
  {
  }

  lemma ReachedLeaf(node: Node, names: seq<seq<byte>>, target: Node)
    requires Reached(node, names, target) && !(node.Dir? && node.readable)
    ensures names == [] && node == target
  {
  }

  /** Among these entries of a directory. */
  ghost predicate ReportsIn(path: seq<byte>, entries: seq<Entry>, names: seq<seq<byte>>, target: Node, call: Call) {
    && |names| > 0 && names[0] != [46] && names[0] != [46, 46]
    && (exists e :: e in entries && e.name == names[0] && Reached(e.node, names[1..], target))
    && Reports(PathTo(path, names), target, call)
  }

  lemma {:induction false} VisitsInDir(path: seq<byte>, entries: seq<Entry>, call: Call)
    ensures call in VisitAll(path + [SLASH], entries)
            <==> exists names, target :: ReportsIn(path, entries, names, target, call)
    decreases entries, 0
  {
    hide Visits, ReportsIn, ReportsBelow, IsDot;
    if |entries| == 0 {
      forall names, target ensures !ReportsIn(path, entries, names, target, call) {
        InNoEntries(path, names, target, call);
      }
    } else {
      var e, rest := entries[0], entries[1..];
      VisitsInDir(path, rest, call);
      if !IsDot(e) {
        VisitsMean(path + [SLASH] + e.name, e.node, call);
      }
      forall names, target | !IsDot(e) && ReportsBelow(path + [SLASH] + e.name, e.node, names, target, call)
        ensures ReportsIn(path, entries, [e.name] + names, target, call)
      {
        InFirst(path, entries, names, target, call);
      }
      forall names, target | ReportsIn(path, rest, names, target, call)
        ensures ReportsIn(path, entries, names, target, call)
      {
        InRest(path, entries, names, target, call);
      }
      forall names, target | ReportsIn(path, entries, names, target, call)
        ensures |names| > 0
        ensures ReportsIn(path, rest, names, target, call)
                || (!IsDot(e) && ReportsBelow(path + [SLASH] + e.name, e.node, names[1..], target, call))
      {
        InEither(path, entries, names, target, call);
      }
    }
  }

  lemma InNoEntries(path: seq<byte>, names: seq<seq<byte>>, target: Node, call: Call)
    ensures !ReportsIn(path, [], names, target, call)
  {
  }

  lemma InFirst(path: seq<byte>, entries: seq<Entry>, names: seq<seq<byte>>, target: Node, call: Call)
    requires |entries| > 0 && !IsDot(entries[0])
    requires ReportsBelow(path + [SLASH] + entries[0].name, entries[0].node, names, target, call)
    ensures ReportsIn(path, entries, [entries[0].name] + names, target, call)
  {
    hide Reached, Reports;
    var more := [entries[0].name] + names;
    assert more[1..] == names;
    assert entries[0] in entries;
    assert PathTo(path, more) == PathTo(path + [47] + more[0], more[1..]);
  }

  lemma InRest(path: seq<byte>, entries: seq<Entry>, names: seq<seq<byte>>, target: Node, call: Call)
    requires |entries| > 0 && ReportsIn(path, entries[1..], names, target, call)
    ensures ReportsIn(path, entries, names, target, call)
  {
    hide Reached, Reports, PathTo;
    var e :| e in entries[1..] && e.name == names[0] && Reached(e.node, names[1..], target);
    assert e in entries;
  }

  lemma InEither(path: seq<byte>, entries: seq<Entry>, names: seq<seq<byte>>, target: Node, call: Call)
    requires |entries| > 0 && ReportsIn(path, entries, names, target, call)
    ensures |names| > 0
    ensures ReportsIn(path, entries[1..], names, target, call)
            || (!IsDot(entries[0])
                && ReportsBelow(path + [SLASH] + entries[0].name, entries[0].node, names[1..], target, call))
  {
    hide Reached, Reports;
    var e :| e in entries && e.name == names[0] && Reached(e.node, names[1..], target);
    assert e == entries[0] || e in entries[1..];
    assert PathTo(path, names) == PathTo(path + [47] + names[0], names[1..]);
  }

  // ---- The walk in the buffer ----

  /** There is room for every path below node when this many bytes are left after its own path. */
  ghost predicate Fits(node: Node, room: int)
    decreases node
  {
    room >= 1 &&
    (node.Dir? ==>
       && room >= 2
       && forall e | e in node.entries && !IsDot(e) :: CString(e.name) && Fits(e.node, room - 1 - |e.name|))
  }

  /** The buffer holds exactly this string, up to its NUL. */
  predicate Holds(buf: seq<byte>, path: seq<byte>) {
    CString(path) && |path| < |buf| && buf[..|path|] == path && buf[|path|] == NUL
  }

  /** dopath returns from an unreadable directory without undoing its edit of the buffer. */
  predicate SlashStays(node: Node, path: seq<byte>, func: Call -> int) {
    node.Dir? && !node.readable && func(Call(path, FtwD)) == 0
  }

  class Walker {
    const fullpath: array<byte>
    var calls: seq<Call>
    var counters: Counters

    constructor (capacity: nat)
      ensures fresh(fullpath) && fullpath.Length == capacity
      ensures calls == [] && counters == Counters(0, 0, 0, 0, 0, 0, 0)
    {
      fullpath := new byte[capacity];
      calls, counters := [], Counters(0, 0, 0, 0, 0, 0, 0);
    }

    method StrCpy(at: nat, s: seq<byte>)
      requires at + |s| < fullpath.Length && CString(s)
      modifies fullpath
      ensures fullpath[..at] == old(fullpath[..at])
      ensures fullpath[at..at + |s|] == s && fullpath[at + |s|] == NUL
    {
      var i := 0;
      while i < |s|
        invariant i <= |s|
        invariant fullpath[..at] == old(fullpath[..at])
        invariant fullpath[at..at + i] == s[..i]
      {
        fullpath[at + i] := s[i];
        assert fullpath[at..at + i + 1] == fullpath[at..at + i] + [s[i]];
        i := i + 1;
      }
      fullpath[at + |s|] := NUL;
    }

    method StrLen() returns (n: nat)
      requires exists i :: 0 <= i < fullpath.Length && fullpath[i] == NUL
      ensures n < fullpath.Length && Holds(fullpath[..], fullpath[..n])
    {
      n := 0;
      while fullpath[n] != NUL
        invariant n < fullpath.Length
        invariant NUL !in fullpath[..n]
        decreases fullpath.Length - n
      {
        assert fullpath[..n + 1] == fullpath[..n] + [fullpath[n]];
        n := n + 1;
      }
    }

    /** Calls the callback on the path in the buffer; the counting is myfunc's, the result is func's. */
    method CallBack(kind: Type, ghost path: seq<byte>, func: Call -> int) returns (r: int)
      requires Holds(fullpath[..], path)
      modifies `calls, `counters
      ensures Ran(old(calls), old(counters), calls, counters, r, [Call(path, kind)], func)
              && r == func(Call(path, kind))
    {
      CutSingle(Call(path, kind), func);
      CountOne(counters, Call(path, kind));
      var n := StrLen();
      SameString(fullpath[..], path, fullpath[..n]);
      calls := calls + [Call(fullpath[..n], kind)];
      counters := Count(counters, kind);
      r := func(Call(fullpath[..n], kind));
    }

    /** Puts a slash after the path in the buffer, and returns where the next name goes. */
    method AddSlash(ghost path: seq<byte>) returns (ptr: nat)
      requires Holds(fullpath[..], path) && |path| + 2 <= fullpath.Length
      modifies fullpath
      ensures ptr == |path| + 1 && Holds(fullpath[..], path + [SLASH])
    {
      ptr := StrLen();
      SameString(fullpath[..], path, fullpath[..ptr]);
      fullpath[ptr] := SLASH;
      ptr := ptr + 1;
      fullpath[ptr] := NUL;
      assert fullpath[..ptr] == path + [SLASH];
    }

    /** Walks the node at the path in the buffer. On return the buffer holds exactly that path again,
        or, for an unreadable directory that the callback did not stop at, the path with a slash. */
    method DoPath(node: Node, ghost path: seq<byte>, func: Call -> int) returns (ret: int)
      requires Holds(fullpath[..], path) && Fits(node, fullpath.Length - |path|)
      modifies this, fullpath
      ensures Ran(old(calls), old(counters), calls, counters, ret, Visits(path, node), func)
      ensures fullpath[..|path|] == path
      ensures Holds(fullpath[..], if SlashStays(node, path, func) then path + [SLASH] else path)
      decreases node, 1
    {
      hide Ran;
      if node.NoStat? {
        ret := CallBack(FtwNs, path, func);
        return;
      }
      if node.File? {
        ret := CallBack(FtwF(node.kind), path, func);
        return;
      }
      ghost var c0, k0, first := calls, counters, Call(path, FtwD);
      ghost var below := if node.readable then VisitAll(path + [SLASH], node.entries)
          else [Call(path + [SLASH], FtwDnr)];
      ret := CallBack(FtwD, path, func);
      ghost var c1, k1 := calls, counters;
      if ret != 0 {
        RanStop(c0, k0, c1, k1, ret, [first], below, func);
        return;
      }
      var ptr := AddSlash(path);
      if !node.readable {
        ret := CallBack(FtwDnr, path + [SLASH], func);
        RanThen(c0, k0, c1, k1, calls, counters, ret, [first], below, func);
        return;
      }
      ret := DoEntries(node.entries, path + [SLASH], ptr, func);
      RanThen(c0, k0, c1, k1, calls, counters, ret, [first], below, func);
      assert fullpath[..ptr - 1] == fullpath[..ptr][..ptr - 1] == path;
      fullpath[ptr - 1] := NUL;
    }

    /** The readdir loop: each name is copied over the one before it. */
    method DoEntries(entries: seq<Entry>, ghost prefix: seq<byte>, ptr: nat, func: Call -> int) returns (ret: int)
      requires ptr == |prefix| < fullpath.Length && fullpath[..ptr] == prefix && CString(prefix)
      requires forall e | e in entries && !IsDot(e) :: CString(e.name) && Fits(e.node, fullpath.Length - ptr - |e.name|)
      modifies this, fullpath
      ensures Ran(old(calls), old(counters), calls, counters, ret, VisitAll(prefix, entries), func)
      ensures fullpath[..ptr] == prefix
      decreases entries, 0
    {
      hide Ran, Visits, VisitAll, Fits;
      ret := 0;
      var i := 0;
      ghost var c0, k0 := calls, counters;
      StartAll(prefix, entries);
      RanNothing(c0, k0, func);
      while i < |entries|
        invariant i <= |entries| && fullpath[..ptr] == prefix && ret == 0
        invariant Ran(c0, k0, calls, counters, 0, VisitAll(prefix, entries[..i]), func)
      {
        var e := entries[i];
        VisitAllSnoc(prefix, entries, i);
        ghost var done := VisitAll(prefix, entries[..i]);
        if !IsDot(e) {
          assert e in entries;
          RoomForName(e.node, fullpath.Length - ptr - |e.name|);
          StrCpy(ptr, e.name);
          assert fullpath[..ptr + |e.name|] == prefix + e.name;
          ghost var c1, k1, here := calls, counters, Visits(prefix + e.name, e.node);
          ret := DoPath(e.node, prefix + e.name, func);
          assert fullpath[..ptr] == fullpath[..ptr + |e.name|][..ptr] == prefix;
          RanThen(c0, k0, c1, k1, calls, counters, ret, done, here, func);
          if ret != 0 {
            StoppedEarly(c0, k0, calls, counters, ret, prefix, entries, i + 1, func);
            break;
          }
        } else {
          assert done + [] == done;
        }
        i := i + 1;
      }
      if ret == 0 {
        assert entries[..i] == entries;
      }
    }
  }

  // ---- Partial runs ----

  /** From one log and set of counters to the next, exactly these calls were made, cut after the
      first nonzero result. */
  ghost predicate Ran(c0: seq<Call>, k0: Counters, c1: seq<Call>, k1: Counters, ret: int, todo: seq<Call>,
                      func: Call -> int) {
    && c1 == c0 + Cut(todo, func).0
    && k1 == CountAll(k0, Cut(todo, func).0)
    && ret == Cut(todo, func).1
  }

  lemma RanNothing(c: seq<Call>, k: Counters, func: Call -> int)
    ensures Ran(c, k, c, k, 0, [], func)
  {
  }

  lemma RanThen(c0: seq<Call>, k0: Counters, c1: seq<Call>, k1: Counters, c2: seq<Call>, k2: Counters, ret: int,
                a: seq<Call>, b: seq<Call>, func: Call -> int)
    requires Ran(c0, k0, c1, k1, 0, a, func) && Ran(c1, k1, c2, k2, ret, b, func)
    ensures Ran(c0, k0, c2, k2, ret, a + b, func)
  {
    hide Cut, CountAll;
    CutConcat(a, b, func);
    CutAll(a, func);
    CountConcat(k0, a, Cut(b, func).0);
    assert c0 + a + Cut(b, func).0 == c0 + (a + Cut(b, func).0);
  }

  lemma RanStop(c0: seq<Call>, k0: Counters, c1: seq<Call>, k1: Counters, ret: int, a: seq<Call>, b: seq<Call>,
                func: Call -> int)
    requires Ran(c0, k0, c1, k1, ret, a, func) && ret != 0
    ensures Ran(c0, k0, c1, k1, ret, a + b, func)
  {
    CutConcat(a, b, func);
  }

  lemma HoldsOne(buf: seq<byte>, path: seq<byte>)
    requires Holds(buf, path)
    ensures IndexOf(buf, NUL) == |path|
  {
    assert buf == path + [NUL] + buf[|path| + 1..];
    IndexOfFirst(path, NUL, buf[|path| + 1..]);
  }

  lemma SameString(buf: seq<byte>, a: seq<byte>, b: seq<byte>)
    requires Holds(buf, a) && Holds(buf, b)
    ensures a == b
  {
    HoldsOne(buf, a);
    HoldsOne(buf, b);
  }

  lemma CutSingle(call: Call, func: Call -> int)
    ensures Cut([call], func) == ([call], func(call))
  {
    assert [call][1..] == [] && [call] + [] == [call];
  }

  lemma StartAll(prefix: seq<byte>, entries: seq<Entry>)
    ensures VisitAll(prefix, entries[..0]) == []
  {
  }

  lemma RoomForName(node: Node, room: int)
    requires Fits(node, room)
    ensures room >= 1
  {
  }

  /** Once a call has stopped the walk, later entries add nothing. */
  lemma StoppedEarly(c0: seq<Call>, k0: Counters, c1: seq<Call>, k1: Counters, ret: int,
                     prefix: seq<byte>, entries: seq<Entry>, n: nat, func: Call -> int)
    requires n <= |entries| && Ran(c0, k0, c1, k1, ret, VisitAll(prefix, entries[..n]), func) && ret != 0
    ensures Ran(c0, k0, c1, k1, ret, VisitAll(prefix, entries), func)
    decreases |entries| - n
  {
    hide Visits, Ran;
    if n < |entries| {
      VisitAllSnoc(prefix, entries, n);
      RanStop(c0, k0, c1, k1, ret, VisitAll(prefix, entries[..n]),
              if IsDot(entries[n]) then [] else Visits(prefix + entries[n].name, entries[n].node), func);
      StoppedEarly(c0, k0, c1, k1, ret, prefix, entries, n + 1, func);
    } else {
      assert entries[..n] == entries;
    }
  }

  /** A walk from a path with room for everything below it; counters from zero. */
  method MyFtw(pathname: seq<byte>, node: Node, capacity: nat, func: Call -> int)
    returns (ret: int, calls: seq<Call>, counters: Counters)
    requires CString(pathname) && |pathname| < capacity && Fits(node, capacity - |pathname|)
    ensures calls == Cut(Visits(pathname, node), func).0 && ret == Cut(Visits(pathname, node), func).1
    ensures ret == 0 ==> Total(counters) == Statable(node)
    ensures ret == 0 ==> Adds(NONE, counters, k => Files(node, k), Dirs(node))
  {
    hide Visits, Cut, Fits, Ran, Total, Statable, CString, Adds, Files, Dirs;
    var w := new Walker(capacity);
    w.StrCpy(0, pathname);
    assert w.fullpath[..][..|pathname|] == w.fullpath[0..0 + |pathname|];
    ret := w.DoPath(node, pathname, func);
    calls, counters := w.calls, w.counters;
    FromNothing(calls, counters, ret, pathname, node, func);
  }

  lemma FromNothing(calls: seq<Call>, counters: Counters, ret: int, path: seq<byte>, node: Node, func: Call -> int)
    requires Ran([], NONE, calls, counters, ret, Visits(path, node), func)
    ensures calls == Cut(Visits(path, node), func).0 && ret == Cut(Visits(path, node), func).1
    ensures ret == 0 ==> Total(counters) == Statable(node)
    ensures ret == 0 ==> Adds(NONE, counters, k => Files(node, k), Dirs(node))
  {
    hide Visits, Cut, CountAll, Statable, Total, Adds, Files, Dirs;
    var cut := Cut(Visits(path, node), func).0;
    assert calls == cut by { EmptyFirst(cut); }
    if ret == 0 {
      CountedAll(path, node, func);
    }
  }

  lemma EmptyFirst(s: seq<Call>)
    ensures [] + s == s
  {
  }

  lemma CountedAll(path: seq<byte>, node: Node, func: Call -> int)
    requires Cut(Visits(path, node), func).1 == 0
    ensures var c := CountAll(NONE, Cut(Visits(path, node), func).0);
            Total(c) == Statable(node) && Adds(NONE, c, k => Files(node, k), Dirs(node))
  {
    hide Visits, Cut, CountAll, Statable, Adds, Files, Dirs;
    CutAll(Visits(path, node), func);
    CountsAreComplete(NONE, path, node);
  }
}
