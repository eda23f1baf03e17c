/** The search of request() for the entry of the Systems file that a client's next child dials
    (chapter18/request.c, devfile.c). */
module Search {
  import opened Text
  import opened Records
  import opened Systems

  /** A line of the Devices file. */
  datatype Device = Device(kind: CStr, class_: CStr, line: CStr)

  /** The error text for a client. */
  datatype ErrMsg = NoMsg | AlreadyLocked(line: CStr, pid: int) | NoDeviceFor(kind: CStr,
                                                                              class_: CStr) | NotFound | Unable

  /** Who holds a line; nobody is 0. */
  function Holder(held: map<CStr, int>, line: CStr): int {
    if line in held then held[line] else 0
  }

  /** dev_find: the first device of this type and class. */
  function FindDevice(devices: seq<Device>, e: Entry): Option<CStr> {
    if |devices| == 0 then None
    else if devices[0].kind == e.kind && devices[0].class_ == e.class_ then Some(devices[0].line)
    else FindDevice(devices[1..], e)
  }

  /** What is looked for, and in what. */
  datatype Query = Query(file: seq<byte>, devices: seq<Device>, held: map<CStr, int>, sysname: CStr, speed: CStr)

  predicate Hit(q: Query, e: Entry) {
    Matches(e, q.sysname, q.speed)
  }

  function DeviceOf(q: Query, e: Entry): Option<CStr> {
    FindDevice(q.devices, e)
  }

  /** The entry's device is there but somebody holds it. */
  predicate Taken(q: Query, e: Entry) {
    DeviceOf(q, e).Some? && Holder(q.held, DeviceOf(q, e).value) != 0
  }

  function WhyTaken(q: Query, e: Entry): ErrMsg
    requires Taken(q, e)
  {
    AlreadyLocked(DeviceOf(q, e).value, Holder(q.held, DeviceOf(q, e).value))
  }

  /** How the search ends: with a line to dial, at an entry for which there is no device at all, at
      the end of the file, or at a malformed line. found counts the matches so far. */
  datatype Choice =
    | Dial(line: CStr, pos: nat, found: int)
    | NoDevice(pos: nat, found: int, text: ErrMsg)
    | Exhausted(found: int, text: ErrMsg)
    | Broken

  function Stopped(q: Query, e: Entry, pos: nat, found: int): Choice {
    match DeviceOf(q, e)
    case None => NoDevice(pos, found, NoDeviceFor(e.kind, e.class_))
    case Some(line) => Dial(line, pos, found)
  }

  /** The loop of request(), from a position, with so many matches and this error text so far. */
  function Choose(q: Query, pos: nat, found: int, text: ErrMsg): (r: Choice)
    ensures r.Dial? || r.NoDevice? ==> r.pos > pos
    decreases |q.file| - pos
  {
    match SysNext(q.file, pos)
    case AtEnd => Exhausted(found, text)
    case Quit => Broken
    case Found(e, after) =>
      if !Hit(q, e) then Choose(q, after, found, text)
      else if Taken(q, e) then Choose(q, after, found + 1, WhyTaken(q, e))
      else Stopped(q, e, after, found + 1)
  }

  /** The error text that request() leaves when its search fails. */
  function Complaint(c: Choice): ErrMsg
    requires c.NoDevice? || c.Exhausted?
  {
    if c.found == 0 then NotFound else if c.text == NoMsg then Unable else c.text
  }

  // ---- What the search means ----

  /** An entry and the position after it. */
  datatype Place = Place(entry: Entry, pos: nat)

  /** The entries ahead of a position, up to the end or to a malformed line. */
  function Ahead(file: seq<byte>, pos: nat): seq<Place>
    decreases |file| - pos
  {
    match SysNext(file, pos)
    case AtEnd => []
    case Quit => []
    case Found(e, after) => [Place(e, after)] + Ahead(file, after)
  }

  /** Reading entries from this position comes to a malformed line. */
  predicate Breaks(file: seq<byte>, pos: nat)
    decreases |file| - pos
  {
    match SysNext(file, pos)
    case AtEnd => false
    case Quit => true
    case Found(_, after) => Breaks(file, after)
  }

  function Hits(q: Query, es: seq<Place>): nat {
    if |es| == 0 then 0 else (if Hit(q, es[0].entry) then 1 else 0) + Hits(q, es[1..])
  }

  /** The error text after passing over these entries. */
  function TextAfter(q: Query, es: seq<Place>, text: ErrMsg): ErrMsg {
    if |es| == 0 then text
    else TextAfter(q, es[1..], if Hit(q, es[0].entry) && Taken(q, es[0].entry) then WhyTaken(q, es[0].entry) else text)
  }

  /** Every match among these has a device that is taken. */
  predicate AllTaken(q: Query, es: seq<Place>) {
    forall j | 0 <= j < |es| :: Hit(q, es[j].entry) ==> Taken(q, es[j].entry)
  }

  /** Entry k is the first match whose device is missing or free. */
  predicate StopsAt(q: Query, es: seq<Place>, k: nat) {
    k < |es| && Hit(q, es[k].entry) && !Taken(q, es[k].entry) && AllTaken(q, es[..k])
  }

  lemma {:induction false} ChooseStops(q: Query, pos: nat, found: int, text: ErrMsg, k: nat)
    requires StopsAt(q, Ahead(q.file, pos), k)
    ensures var es := Ahead(q.file, pos);
            Choose(q, pos, found, text) == Stopped(q, es[k].entry, es[k].pos, found + Hits(q, es[..k]) + 1)
    decreases k
  {
    hide Hit, Taken, SysNext;
    var es := Ahead(q.file, pos);
    if k > 0 {
      var t := es[1..];
      assert t == Ahead(q.file, es[0].pos);
      var s, u := es[..k], t[..k - 1];
      assert s[0] == es[0] && s[1..] == u;
      forall j | 0 <= j < |u| ensures Hit(q, u[j].entry) ==> Taken(q, u[j].entry) {
        assert u[j] == s[j + 1];
      }
      ChooseStops(q, es[0].pos, if Hit(q, es[0].entry) then found + 1 else found,
                  if Hit(q, es[0].entry) then WhyTaken(q, es[0].entry) else text, k - 1);
    }
  }

  lemma {:induction false} ChooseRunsOut(q: Query, pos: nat, found: int, text: ErrMsg)
    requires AllTaken(q, Ahead(q.file, pos))
    ensures var es := Ahead(q.file, pos);
            Choose(q, pos, found, text)
            == if Breaks(q.file, pos) then Broken else Exhausted(found + Hits(q, es), TextAfter(q, es, text))
    decreases |q.file| - pos
  {
    hide Hit, Taken, SysNext;
    var es := Ahead(q.file, pos);
    if |es| > 0 {
      var t := es[1..];
      assert t == Ahead(q.file, es[0].pos);
      assert AllTaken(q, t) by {
        assert forall j | 0 <= j < |t| :: t[j] == es[j + 1];
      }
      ChooseRunsOut(q, es[0].pos, if Hit(q, es[0].entry) then found + 1 else found,
                    if Hit(q, es[0].entry) then WhyTaken(q, es[0].entry) else text);
    }
  }

  /** One or the other. */
  lemma {:induction false} StopsOrNot(q: Query, es: seq<Place>) returns (k: nat)
    ensures k <= |es| && if k < |es| then StopsAt(q, es, k) else AllTaken(q, es)
  {
    hide Hit, Taken;
    k := 0;
    while k < |es| && (Hit(q, es[k].entry) ==> Taken(q, es[k].entry))
      invariant k <= |es| && AllTaken(q, es[..k])
    {
      assert es[..k + 1] == es[..k] + [es[k]];
      k := k + 1;
    }
    assert k == |es| ==> es[..k] == es;
  }

  /** Exactly when a line is dialed, and which: some entry ahead matches, its device is there and
      free, and every earlier match has a device that is taken. A match without a device ends the
      search even if a later one has a free device, and so does a malformed line. */
  lemma DialsIff(q: Query, pos: nat, found: int, text: ErrMsg)
    ensures var es, c := Ahead(q.file, pos), Choose(q, pos, found, text);
            && (c.Dial? <==> exists k: nat :: StopsAt(q, es, k) && DeviceOf(q, es[k].entry).Some?)
            && (c.NoDevice? <==> exists k: nat :: StopsAt(q, es, k) && DeviceOf(q, es[k].entry).None?)
            && (c.Broken? <==> AllTaken(q, es) && Breaks(q.file, pos))
            && (c.Exhausted? <==> AllTaken(q, es) && !Breaks(q.file, pos))
    ensures var es, c := Ahead(q.file, pos), Choose(q, pos, found, text);
            forall k: nat | StopsAt(q, es, k) ::
              c == Stopped(q, es[k].entry, es[k].pos, found + Hits(q, es[..k]) + 1)
  {
    hide Hit, Taken, Choose, Ahead, Breaks, Hits, TextAfter;
    var es := Ahead(q.file, pos);
    forall k: nat | StopsAt(q, es, k)
      ensures Choose(q, pos, found, text) == Stopped(q, es[k].entry, es[k].pos, found + Hits(q, es[..k]) + 1)
      ensures !AllTaken(q, es)
    {
      ChooseStops(q, pos, found, text, k);
    }
    var k := StopsOrNot(q, es);
    if k == |es| {
      ChooseRunsOut(q, pos, found, text);
    }
  }

  /** The dialed line was free. */
  lemma DialsFreeLine(q: Query, pos: nat, found: int, text: ErrMsg)
    ensures var c := Choose(q, pos, found, text); c.Dial? ==> Holder(q.held, c.line) == 0
  {
    hide Hit, Holder, Choose, Ahead, Breaks, Hits;
    var es, c := Ahead(q.file, pos), Choose(q, pos, found, text);
    DialsIff(q, pos, found, text);
    if c.Dial? {
      var k: nat :| StopsAt(q, es, k) && DeviceOf(q, es[k].entry).Some?;
    }
  }

  /** What a failed search tells the client, found matches having been tried before: that there never
      was a match, that a match has no device, which device was found taken last, and by whom, or,
      if no more matches were ahead, just that it is unable to connect. */
  lemma ComplaintMeans(q: Query, pos: nat, found: nat)
    ensures var es, c := Ahead(q.file, pos), Choose(q, pos, found, NoMsg);
            c.NoDevice? || c.Exhausted? ==>
              && (Complaint(c) == NotFound <==> found == 0 && NoHit(q, es))
              && (Complaint(c) == Unable <==> found > 0 && NoHit(q, es))
              && (Complaint(c).NoDeviceFor? <==> c.NoDevice?)
              && (Complaint(c).AlreadyLocked? <==> c.Exhausted? && !NoHit(q, es))
              && (Complaint(c).AlreadyLocked? ==> exists j: nat ::
                    LastHit(q, es, j) && Complaint(c) == WhyTaken(q, es[j].entry))
              && Complaint(c) != NoMsg
  {
    hide Hit, Taken, Choose, Ahead, Breaks, Hits, TextAfter, NoHit, LastHit;
    var es, c := Ahead(q.file, pos), Choose(q, pos, found, NoMsg);
    DialsIff(q, pos, found, NoMsg);
    if c.NoDevice? {
      var k: nat :| StopsAt(q, es, k) && DeviceOf(q, es[k].entry).None?;
      HitThere(q, es, k);
    } else if c.Exhausted? {
      ChooseRunsOut(q, pos, found, NoMsg);
      LastTaken(q, es, NoMsg);
    }
  }

  predicate NoHit(q: Query, es: seq<Place>) {
    forall j | 0 <= j < |es| :: !Hit(q, es[j].entry)
  }

  /** Entry j is the last match, and its device is taken. */
  predicate LastHit(q: Query, es: seq<Place>, j: nat) {
    && j < |es| && Hit(q, es[j].entry) && Taken(q, es[j].entry)
    && forall m | j < m < |es| :: !Hit(q, es[m].entry)
  }

  lemma HitThere(q: Query, es: seq<Place>, k: nat)
    requires StopsAt(q, es, k)
    ensures !NoHit(q, es)
  {
  }

  lemma {:induction false} LastTaken(q: Query, es: seq<Place>, text: ErrMsg)
    requires AllTaken(q, es)
    ensures Hits(q, es) == 0 <==> NoHit(q, es)
    ensures Hits(q, es) == 0 ==> TextAfter(q, es, text) == text
    ensures Hits(q, es) > 0 ==> exists j: nat :: LastHit(q, es, j) && TextAfter(q, es, text) == WhyTaken(q, es[j].entry)
  {
    hide Hit, Taken, WhyTaken;
    if |es| > 0 {
      var t := es[1..];
      assert forall j | 0 <= j < |t| :: t[j] == es[j + 1];
      var next := if Hit(q, es[0].entry) && Taken(q, es[0].entry) then WhyTaken(q, es[0].entry) else text;
      LastTaken(q, t, next);
      if Hits(q, t) > 0 {
        var j: nat :| LastHit(q, t, j) && TextAfter(q, t, next) == WhyTaken(q, t[j].entry);
        assert es[j + 1] == t[j];
        assert forall m | j + 1 < m < |es| :: es[m] == t[m - 1];
        assert LastHit(q, es, j + 1);
      } else if Hit(q, es[0].entry) {
        assert forall m | 0 < m < |es| :: es[m] == t[m - 1];
        assert LastHit(q, es, 0);
      }
    }
  }

  /** A successful search uses up exactly the matches it counts, so it can succeed only as often as
      there are any; and it reads on towards the same end. */
  lemma {:induction false} DialUsesUp(q: Query, pos: nat, found: int, text: ErrMsg)
    ensures var c := Choose(q, pos, found, text);
            c.Dial? ==>
              && c.found > found
              && Remaining(q.file, c.pos, q.sysname, q.speed) + (c.found - found)
                   == Remaining(q.file, pos, q.sysname, q.speed)
              && (Breaks(q.file, c.pos) <==> Breaks(q.file, pos))
    decreases |q.file| - pos
  {
    hide Taken, WhyTaken, DeviceOf, Matches, SysNext;
    match SysNext(q.file, pos)
    case AtEnd =>
    case Quit =>
    case Found(e, after) =>
      if !Hit(q, e) {
        DialUsesUp(q, after, found, text);
      } else if Taken(q, e) {
        DialUsesUp(q, after, found + 1, WhyTaken(q, e));
      }
  }

  /** A search that comes to a malformed line was on the way to one. */
  lemma BrokenBreaks(q: Query, pos: nat, found: int, text: ErrMsg)
    ensures Choose(q, pos, found, text).Broken? ==> Breaks(q.file, pos)
  {
    hide Choose, Breaks;
    DialsIff(q, pos, found, text);
  }
}
